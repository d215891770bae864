// aegis/matching/fuzzy.py, `phonetic_key`: a Soundex-style key whose loop stops
// early without changing the result.
module Phonetic {

  // Unicode case and character classes.
  datatype Text = Text(lower: string -> string, upper: string -> string, isAlpha: char -> bool, isSpace: char -> bool)

  // The consonant code of a letter, or none.
  function Code(ch: char): string {
    if ch in "BFPV" then "1"
    else if ch in "CGJKQSXZ" then "2"
    else if ch in "DT" then "3"
    else if ch == 'L' then "4"
    else if ch in "MN" then "5"
    else if ch == 'R' then "6"
    else ""
  }

  // ---- The token that is keyed ----

  function Letters(s: string, text: Text): string {
    if s == [] then []
    else
      var ch := s[|s| - 1];
      Letters(s[..|s| - 1], text) + if text.isAlpha(ch) || text.isSpace(ch) then [ch] else []
  }

  // Runs of characters that are not spaces, as `split()` gives them.
  function Tokens(s: string, text: Text): (tokens: seq<string>)
    ensures forall i :: 0 <= i < |tokens| ==> tokens[i] != ""
    ensures s != [] && !text.isSpace(s[|s| - 1]) ==> tokens != []
  {
    if s == [] then []
    else
      var front, ch := s[..|s| - 1], s[|s| - 1];
      var before := Tokens(front, text);
      if text.isSpace(ch) then before
      else if front == [] || text.isSpace(front[|front| - 1]) then before + [[ch]]
      else
        var grown := before[|before| - 1] + [ch];
        assert grown != "";
        before[..|before| - 1] + [grown]
  }

  // The first of the longest.
  function Longest(tokens: seq<string>): (best: string)
    requires tokens != []
    ensures best in tokens
  {
    if |tokens| == 1 then tokens[0]
    else
      var best := Longest(tokens[..|tokens| - 1]);
      if |tokens[|tokens| - 1]| > |best| then tokens[|tokens| - 1] else best
  }

  lemma {:induction false} LongestIsFirstLongest(tokens: seq<string>) returns (i: nat)
    requires tokens != []
    ensures i < |tokens| && tokens[i] == Longest(tokens)
    ensures forall j :: 0 <= j < |tokens| ==> |tokens[j]| <= |tokens[i]| && (j < i ==> |tokens[j]| < |tokens[i]|)
  {
    if |tokens| == 1 {
      i := 0;
    } else {
      var front := tokens[..|tokens| - 1];
      i := LongestIsFirstLongest(front);
      assert forall j :: 0 <= j < |front| ==> tokens[j] == front[j];
      if |tokens[|tokens| - 1]| > |tokens[i]| { i := |tokens| - 1; }
    }
  }

  // ---- The key ----

  datatype Scan = Scan(key: string, prev: string)

  // What a letter does to a scan: the code it adds unless that still stands, and
  // whether a repetition counts again after it.
  datatype Effect = Effect(code: string, separates: bool)

  function EffectOf(ch: char): Effect {
    Effect(Code(ch), ch in "AEIOUYHW")
  }

  function Effects(token: string): seq<Effect> {
    seq(|token|, i requires 0 <= i < |token| => EffectOf(token[i]))
  }

  // Without the early stop: the first letter, then the code of every letter
  // that has one and does not repeat the code still standing.
  function Scanned(first: char, effects: seq<Effect>, n: nat): (scan: Scan)
    requires 0 < n <= |effects|
    ensures 0 < |scan.key| && scan.key[0] == first
  {
    if n == 1 then Scan([first], effects[0].code)
    else
      var before, e := Scanned(first, effects, n - 1), effects[n - 1];
      Scan(if e.code != "" && e.code != before.prev then before.key + e.code else before.key,
           if e.separates then "" else e.code)
  }

  function Padded(key: string): (padded: string)
    requires key != ""
    ensures |padded| == 4
  {
    (key + "000")[..4]
  }

  function TokenKey(token: string): (key: string)
    requires token != ""
    ensures |key| == 4 && key[0] == token[0]
  {
    Padded(Scanned(token[0], Effects(token), |token|).key)
  }

  function Key(name: string, text: Text): string {
    var tokens := Tokens(Letters(text.upper(name), text), text);
    if tokens == [] then "" else TokenKey(Longest(tokens))
  }

  // Scanning further only adds to the key.
  lemma {:induction false} ScanGrows(first: char, effects: seq<Effect>, m: nat, n: nat)
    requires 0 < m <= n <= |effects|
    ensures Scanned(first, effects, m).key <= Scanned(first, effects, n).key
  {
    if m == n {
    } else {
      ScanGrows(first, effects, m, n - 1);
    }
  }

  lemma PadsAlike(short: string, long: string)
    requires short <= long && |short| >= 4
    ensures Padded(short) == Padded(long) == short[..4]
  {
    assert (short + "000")[..4] == short[..4] == long[..4] == (long + "000")[..4];
  }

  // The loop of the source, which stops at four characters.
  method KeyToken(token: string) returns (key: string)
    requires token != ""
    ensures key == TokenKey(token)
  {
    var first := token[0];
    key := [first];
    var prev := Code(first);
    for i := 1 to |token|
      invariant Scan(key, prev) == Scanned(first, Effects(token), i)
    {
      var ch := token[i];
      var code := Code(ch);
      if code != "" && code != prev { key := key + code; }
      if ch in "AEIOUYHW" { prev := ""; } else { prev := code; }
      if |key| >= 4 {
        ScanGrows(first, Effects(token), i + 1, |token|);
        PadsAlike(key, Scanned(first, Effects(token), |token|).key);
        break;
      }
    }
    key := Padded(key);
  }

  method PhoneticKey(name: string, text: Text) returns (key: string)
    ensures key == Key(name, text)
    ensures key == "" || |key| == 4
  {
    var tokens := Tokens(Letters(text.upper(name), text), text);
    if tokens == [] { return ""; }
    key := KeyToken(Longest(tokens));
  }

  // The first letter is part of the key, so names whose keyed tokens begin
  // differently never share one: IOSIF and YOSEF do not, whatever follows.
  lemma FirstLetterKept(a: string, b: string)
    requires a != "" && b != "" && TokenKey(a) == TokenKey(b)
    ensures a[0] == b[0]
  {
  }

  lemma IosifIsNotYosef()
    ensures TokenKey("IOSIF") != TokenKey("YOSEF")
  {
    assert TokenKey("IOSIF")[0] == 'I' && TokenKey("YOSEF")[0] == 'Y';
  }

  // ---- Letters that sound alike ----

  const GROUPS := ["BFPV", "CGJKQSXZ", "DT", "L", "MN", "R"]

  // In one group, or both silent and both or neither separating what they stand between.
  ghost predicate SameSound(a: char, b: char) {
    || a == b
    || (exists g :: 0 <= g < 6 && a in GROUPS[g] && b in GROUPS[g])
    || (Separates(a) && Separates(b))
  }

  predicate Separates(ch: char) {
    ch in ['A', 'E', 'I', 'O', 'U', 'Y', 'H', 'W']
  }

  // The groups are numbered from 1, and no other letter has a code.
  lemma CodesAreGroups(ch: char)
    ensures forall g :: 0 <= g < 6 && ch in GROUPS[g] ==> Code(ch) == ["123456"[g]]
    ensures (forall g :: 0 <= g < 6 ==> ch !in GROUPS[g]) ==> Code(ch) == ""
  {
    assert GROUPS[0] == "BFPV" && GROUPS[1] == "CGJKQSXZ" && GROUPS[2] == "DT";
    assert GROUPS[3] == "L" && GROUPS[4] == "MN" && GROUPS[5] == "R";
  }

  lemma Separators(ch: char)
    ensures ch in "AEIOUYHW" <==> Separates(ch)
    ensures Separates(ch) ==> Code(ch) == ""
  {
    assert "AEIOUYHW" == ['A', 'E', 'I', 'O', 'U', 'Y', 'H', 'W'];
  }

  // The codes of the second to the n-th letter that differ from that of the
  // letter before.
  function Sounds(token: string, n: nat): string
    requires 0 < n <= |token|
  {
    if n == 1 then ""
    else Sounds(token, n - 1) + if Code(token[n - 1]) != Code(token[n - 2]) then Code(token[n - 1]) else ""
  }

  lemma {:induction false} ScannedIs(token: string, n: nat)
    requires 0 < n <= |token|
    ensures Scanned(token[0], Effects(token), n) == Scan([token[0]] + Sounds(token, n), Code(token[n - 1]))
  {
    if n == 1 {
    } else {
      ScannedIs(token, n - 1);
      Separators(token[n - 1]);
      OneSoundMore(token[0], Effects(token), n, Sounds(token, n - 1), Code(token[n - 2]));
    }
  }

  lemma OneSoundMore(first: char, effects: seq<Effect>, n: nat, sounds: string, prev: string)
    requires 1 < n <= |effects| && (effects[n - 1].separates ==> effects[n - 1].code == "")
    requires Scanned(first, effects, n - 1) == Scan([first] + sounds, prev)
    ensures var code := effects[n - 1].code;
      Scanned(first, effects, n) == Scan([first] + (sounds + if code != prev then code else ""), code)
  {
    var code := effects[n - 1].code;
    assert [first] + (sounds + code) == [first] + sounds + code;
    assert sounds + "" == sounds;
  }

  // So the key is the first letter and those codes, cut or filled up with zeros
  // to four: what resets the code at vowels and H, W, Y changes nothing, since
  // no letter without a code leaves one standing.
  lemma KeyIs(token: string)
    requires token != ""
    ensures TokenKey(token) == ([token[0]] + Sounds(token, |token|) + "000")[..4]
  {
    ScannedIs(token, |token|);
  }

  lemma SameEffect(a: char, b: char)
    requires SameSound(a, b)
    ensures Code(a) == Code(b) && (a in "AEIOUYHW" <==> b in "AEIOUYHW")
  {
    Separators(a);
    Separators(b);
    if g :| 0 <= g < 6 && a in GROUPS[g] && b in GROUPS[g] {
      CodesAreGroups(a);
      CodesAreGroups(b);
      assert Code(a) == Code(b) == ["123456"[g]];
    }
  }

  // Words that begin alike and sound alike letter for letter share a key.
  lemma SoundsAlike(a: string, b: string)
    requires a != "" && |a| == |b| && a[0] == b[0] && forall i :: 0 <= i < |a| ==> SameSound(a[i], b[i])
    ensures TokenKey(a) == TokenKey(b)
  {
    forall i | 0 <= i < |a| ensures EffectOf(a[i]) == EffectOf(b[i]) { SameEffect(a[i], b[i]); }
    assert Effects(a) == Effects(b);
  }

  lemma MuhammadIsMohammed()
    ensures TokenKey("MUHAMMAD") == TokenKey("MOHAMMED")
  {
    SoundsAlike("MUHAMMAD", "MOHAMMED");
  }
}
