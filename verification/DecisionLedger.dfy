// aegis/ledger/store.py over aegis/storage/ledger_backend.py: an append-only
// chain in which each entry carries the hash of the one before.
module DecisionLedger {
  import opened Wrappers

  // What is signed, what is hashed, and what is stored.
  datatype Body<C> = Body(decisionId: string, content: C, prevHash: string)
  datatype Sealed<C> = Sealed(body: Body<C>, signature: string)
  datatype Entry<C> = Entry(sealed: Sealed<C>, thisHash: string)

  // Sixty-four zeros.
  function GenesisHash(): string {
    seq(64, i => '0')
  }

  // SHA-256 over canonical bytes and Ed25519, as functions of what they are applied to.
  datatype Suite<!C(!new)> = Suite(
    hash: Sealed<C> -> string,
    sign: (string, Body<C>) -> string,
    verify: (string, Body<C>, string) -> bool,
    pub: string -> string)
  {
    // Own signatures verify.
    ghost predicate SignsOwn() {
      forall key, body :: verify(pub(key), body, sign(key, body))
    }

    // Nothing in these two lists collides, or hashes to the genesis value.
    ghost predicate NoCollision(a: seq<Entry<C>>, b: seq<Entry<C>>) {
      && (forall x, y :: x in a && y in b && hash(x.sealed) == hash(y.sealed) ==> x.sealed == y.sealed)
      && (forall x :: x in a ==> hash(x.sealed) != GenesisHash())
      && (forall y :: y in b ==> hash(y.sealed) != GenesisHash())
    }
  }

  // ---- Chains on values ----

  function Head<C>(es: seq<Entry<C>>): string {
    if es == [] then GenesisHash() else es[|es| - 1].thisHash
  }

  predicate Linked<C(!new)>(suite: Suite<C>, pub: string, prev: string, e: Entry<C>) {
    && e.sealed.body.prevHash == prev
    && suite.verify(pub, e.sealed.body, e.sealed.signature)
    && suite.hash(e.sealed) == e.thisHash
  }

  predicate LinkedAt<C(!new)>(suite: Suite<C>, pub: string, es: seq<Entry<C>>, i: nat)
    requires i < |es|
  {
    Linked(suite, pub, Head(es[..i]), es[i])
  }

  ghost predicate Intact<C(!new)>(suite: Suite<C>, pub: string, es: seq<Entry<C>>) {
    forall i :: 0 <= i < |es| ==> LinkedAt(suite, pub, es, i)
  }

  function Seal<C(!new)>(suite: Suite<C>, key: string, prev: string, decisionId: string, content: C): Entry<C> {
    var body := Body(decisionId, content, prev);
    var sealed := Sealed(body, suite.sign(key, body));
    Entry(sealed, suite.hash(sealed))
  }

  lemma AppendKeepsIntact<C(!new)>(suite: Suite<C>, key: string, es: seq<Entry<C>>, decisionId: string, content: C)
    requires suite.SignsOwn() && Intact(suite, suite.pub(key), es)
    ensures Intact(suite, suite.pub(key), es + [Seal(suite, key, Head(es), decisionId, content)])
  {
    var more := es + [Seal(suite, key, Head(es), decisionId, content)];
    forall i | 0 <= i < |more| ensures LinkedAt(suite, suite.pub(key), more, i) {
      assert more[..i] == es[..i];
      if i < |es| { assert LinkedAt(suite, suite.pub(key), es, i); } else { assert es[..i] == es; }
    }
  }

  lemma IntactFront<C(!new)>(suite: Suite<C>, pub: string, es: seq<Entry<C>>)
    requires es != [] && Intact(suite, pub, es)
    ensures Intact(suite, pub, es[..|es| - 1]) && LinkedAt(suite, pub, es, |es| - 1)
  {
    var front := es[..|es| - 1];
    forall i | 0 <= i < |front| ensures LinkedAt(suite, pub, front, i) {
      assert front[..i] == es[..i];
      assert LinkedAt(suite, pub, es, i);
    }
  }

  lemma LastHash<C(!new)>(suite: Suite<C>, pub: string, es: seq<Entry<C>>)
    requires es != [] && Intact(suite, pub, es)
    ensures suite.hash(es[|es| - 1].sealed) == Head(es)
  {
    IntactFront(suite, pub, es);
  }

  // The head pins the whole history: verifying chains with one head are one chain.
  lemma {:induction false} HeadDetermines<C(!new)>(suite: Suite<C>, pubA: string, a: seq<Entry<C>>,
                                                  pubB: string, b: seq<Entry<C>>)
    requires Intact(suite, pubA, a) && Intact(suite, pubB, b) && Head(a) == Head(b)
    requires suite.NoCollision(a, b)
    ensures a == b
    decreases |a|
  {
    if a == [] || b == [] {
      if a != [] { LastHash(suite, pubA, a); }
      if b != [] { LastHash(suite, pubB, b); }
    } else {
      var x, y := a[|a| - 1], b[|b| - 1];
      LastHash(suite, pubA, a);
      LastHash(suite, pubB, b);
      assert x.sealed == y.sealed;
      IntactFront(suite, pubA, a);
      IntactFront(suite, pubB, b);
      HeadDetermines(suite, pubA, a[..|a| - 1], pubB, b[..|b| - 1]);
      assert a == a[..|a| - 1] + [x] && b == b[..|b| - 1] + [y];
    }
  }

  // ---- Backends ----

  datatype Error = CorruptChain(badSeq: nat) | WrongKey | DuplicateId

  predicate HasId<C>(es: seq<Entry<C>>, decisionId: string) {
    exists i :: 0 <= i < |es| && es[i].sealed.body.decisionId == decisionId
  }

  class MemoryLedgerBackend<C, A> {
    var rows: seq<Entry<C>>
    var archives: map<string, A>
    var meta: map<string, string>

    constructor ()
      ensures rows == [] && archives == map[] && meta == map[]
    {
      rows, archives, meta := [], map[], map[];
    }

    method Append(entry: Entry<C>, archive: Option<A>)
      modifies this
      ensures rows == old(rows) + [entry] && meta == old(meta)
      ensures archives == if archive.None? then old(archives)
        else old(archives)[entry.sealed.body.decisionId := archive.value]
    {
      rows := rows + [entry];
      if archive.Some? { archives := archives[entry.sealed.body.decisionId := archive.value]; }
    }

    method ArchiveFor(decisionId: string) returns (archive: Option<A>)
      ensures archive == if decisionId in archives then Some(archives[decisionId]) else None
    {
      archive := if decisionId in archives then Some(archives[decisionId]) else None;
    }

    // Sets the key if absent, and returns what is stored either way.
    method InitMeta(key: string, value: string) returns (stored: string)
      modifies this
      ensures rows == old(rows) && archives == old(archives)
      ensures stored == (if key in old(meta) then old(meta)[key] else value) && meta == old(meta)[key := stored]
    {
      if key !in meta { meta := meta[key := value]; }
      stored := meta[key];
    }
  }

  datatype LedgerRow<C, A> = LedgerRow(entry: Entry<C>, archive: Option<A>)

  function EntriesOf<C, A>(rows: seq<LedgerRow<C, A>>): seq<Entry<C>> {
    seq(|rows|, i requires 0 <= i < |rows| => rows[i].entry)
  }

  function FindArchive<C, A>(rows: seq<LedgerRow<C, A>>, decisionId: string): Option<A> {
    if rows == [] then None
    else if rows[0].entry.sealed.body.decisionId == decisionId then rows[0].archive
    else FindArchive(rows[1..], decisionId)
  }

  // Rows in seq order; decision_id is UNIQUE, so a second insert of an id is refused.
  class SqliteLedgerBackend<C, A> {
    var rows: seq<LedgerRow<C, A>>
    var meta: map<string, string>

    constructor ()
      ensures rows == [] && meta == map[]
    {
      rows, meta := [], map[];
    }

    method Append(entry: Entry<C>, archive: Option<A>) returns (inserted: bool)
      modifies this
      ensures inserted <==> !HasId(EntriesOf(old(rows)), entry.sealed.body.decisionId)
      ensures rows == if inserted then old(rows) + [LedgerRow(entry, archive)] else old(rows)
      ensures meta == old(meta)
    {
      inserted := !HasId(EntriesOf(rows), entry.sealed.body.decisionId);
      if inserted { rows := rows + [LedgerRow(entry, archive)]; }
    }

    method ArchiveFor(decisionId: string) returns (archive: Option<A>)
      ensures archive == FindArchive(rows, decisionId)
    {
      for i := 0 to |rows|
        invariant FindArchive(rows, decisionId) == FindArchive(rows[i..], decisionId)
      {
        if rows[i].entry.sealed.body.decisionId == decisionId { return rows[i].archive; }
      }
      return None;
    }

    method InitMeta(key: string, value: string) returns (stored: string)
      modifies this
      ensures rows == old(rows)
      ensures stored == (if key in old(meta) then old(meta)[key] else value) && meta == old(meta)[key := stored]
    {
      if key !in meta { meta := meta[key := value]; }
      stored := meta[key];
    }
  }

  const KEY_META := "signing_pub_hex"

  // ---- The ledger over the durable backend ----

  // `verify_chain`: the answer, and the least index at which a link fails.
  method VerifyChain<C(!new)>(suite: Suite<C>, pub: string, entries: seq<Entry<C>>)
    returns (ok: bool, firstBad: Option<nat>)
    ensures ok <==> Intact(suite, pub, entries)
    ensures ok <==> firstBad.None?
    ensures firstBad.Some? ==>
      && firstBad.value < |entries| && !LinkedAt(suite, pub, entries, firstBad.value)
      && forall i :: 0 <= i < firstBad.value ==> LinkedAt(suite, pub, entries, i)
  {
    var prev := GenesisHash();
    for i := 0 to |entries|
      invariant prev == Head(entries[..i])
      invariant forall j :: 0 <= j < i ==> LinkedAt(suite, pub, entries, j)
    {
      var env := entries[i];
      ghost var linked := LinkedAt(suite, pub, entries, i);
      if env.sealed.body.prevHash != prev { return false, Some(i); }
      if !suite.verify(pub, env.sealed.body, env.sealed.signature) { return false, Some(i); }
      var recomputed := suite.hash(env.sealed);
      if recomputed != env.thisHash { return false, Some(i); }
      prev := env.thisHash;
      assert entries[..i + 1][..i] == entries[..i];
    }
    return true, None;
  }

  class Ledger<C(!new), A> {
    const suite: Suite<C>
    const signingKey: string
    const signingPub: string
    const backend: SqliteLedgerBackend<C, A>
    var entries: seq<Entry<C>>
    var byId: map<string, Entry<C>>

    // Use `Open`, which is where the source's constructor can refuse.
    constructor (suite: Suite<C>, signingKey: string, signingPub: string, backend: SqliteLedgerBackend<C, A>,
                 entries: seq<Entry<C>>)
      ensures this.suite == suite && this.signingKey == signingKey && this.signingPub == signingPub
      ensures this.backend == backend && this.entries == entries && this.byId == Index(entries)
    {
      this.suite, this.signingKey, this.signingPub, this.backend := suite, signingKey, signingPub, backend;
      this.entries, this.byId := entries, Index(entries);
    }

    // The later of two entries with one id wins, as in a dictionary filled in order.
    static function Index(es: seq<Entry<C>>): map<string, Entry<C>> {
      if es == [] then map[]
      else Index(es[..|es| - 1])[es[|es| - 1].sealed.body.decisionId := es[|es| - 1]]
    }

    static method Open(suite: Suite<C>, signingKey: string, signingPub: string, backend: SqliteLedgerBackend<C, A>)
      returns (r: Result<Ledger<C, A>, Error>)
      modifies backend
      ensures backend.rows == old(backend.rows)
      ensures KEY_META in backend.meta
      ensures backend.meta[KEY_META]
           == if KEY_META in old(backend.meta) then old(backend.meta)[KEY_META] else signingPub
      ensures r.Ok? <==> backend.meta[KEY_META] == signingPub && Intact(suite, signingPub, EntriesOf(backend.rows))
      ensures r.Ok? ==> r.value.entries == EntriesOf(backend.rows) && r.value.byId == Index(EntriesOf(backend.rows))
      ensures r.Ok? ==> fresh(r.value) && r.value.suite == suite && r.value.backend == backend
      ensures r.Ok? ==> r.value.signingKey == signingKey && r.value.signingPub == signingPub
      ensures r.Err? && r.error.CorruptChain? ==>
        r.error.badSeq < |backend.rows| && !LinkedAt(suite, signingPub, EntriesOf(backend.rows), r.error.badSeq)
    {
      var stored := backend.InitMeta(KEY_META, signingPub);
      if stored != signingPub { return Err(WrongKey); }
      var loaded := EntriesOf(backend.rows);
      if loaded != [] {
        var ok, bad := VerifyChain(suite, signingPub, loaded);
        if !ok { return Err(CorruptChain(bad.value)); }
      }
      var ledger := new Ledger(suite, signingKey, signingPub, backend, loaded);
      return Ok(ledger);
    }

    method HeadHash() returns (head: string)
      ensures head == Head(entries)
    {
      head := if entries == [] then GenesisHash() else entries[|entries| - 1].thisHash;
    }

    // Chain, sign, hash, append; the list in memory first, then the table.
    method Append(decisionId: string, content: C, archive: Option<A>) returns (r: Result<Entry<C>, Error>)
      modifies this, backend
      ensures entries == old(entries) + [Seal(suite, signingKey, Head(old(entries)), decisionId, content)]
      ensures byId == old(byId)[decisionId := entries[|entries| - 1]]
      ensures r.Ok? <==> !HasId(EntriesOf(old(backend.rows)), decisionId)
      ensures r.Ok? ==> r.value == entries[|entries| - 1]
      ensures backend.rows == if r.Ok? then old(backend.rows) + [LedgerRow(entries[|entries| - 1], archive)]
        else old(backend.rows)
      ensures backend.meta == old(backend.meta)
    {
      var prev := HeadHash();
      var body := Body(decisionId, content, prev);
      var sealed := Sealed(body, suite.sign(signingKey, body));
      var envelope := Entry(sealed, suite.hash(sealed));
      entries := entries + [envelope];
      byId := byId[decisionId := envelope];
      var inserted := backend.Append(envelope, archive);
      if !inserted { return Err(DuplicateId); }
      return Ok(envelope);
    }
  }

  // ---- Runs of append, and reopening ----

  datatype Record<C, A> = Record(decisionId: string, content: C, archive: Option<A>)

  // What a run leaves in memory and in the table, from an empty store.
  function InMemory<C(!new), A>(suite: Suite<C>, key: string, rs: seq<Record<C, A>>): (es: seq<Entry<C>>)
    ensures |es| == |rs|
  {
    if rs == [] then []
    else
      var front := InMemory(suite, key, rs[..|rs| - 1]);
      var r := rs[|rs| - 1];
      front + [Seal(suite, key, Head(front), r.decisionId, r.content)]
  }

  function InTable<C(!new), A>(suite: Suite<C>, key: string, rs: seq<Record<C, A>>): seq<Entry<C>> {
    if rs == [] then []
    else
      var table := InTable(suite, key, rs[..|rs| - 1]);
      var e := InMemory(suite, key, rs)[|rs| - 1];
      if HasId(table, e.sealed.body.decisionId) then table else table + [e]
  }

  ghost predicate DistinctIds<C, A>(rs: seq<Record<C, A>>) {
    forall i, j :: 0 <= i < j < |rs| ==> rs[i].decisionId != rs[j].decisionId
  }

  lemma {:induction false} RunIntact<C(!new), A>(suite: Suite<C>, key: string, rs: seq<Record<C, A>>)
    requires suite.SignsOwn()
    ensures Intact(suite, suite.pub(key), InMemory(suite, key, rs))
  {
    if rs == [] {
    } else {
      RunIntact(suite, key, rs[..|rs| - 1]);
      var r := rs[|rs| - 1];
      AppendKeepsIntact(suite, key, InMemory(suite, key, rs[..|rs| - 1]), r.decisionId, r.content);
    }
  }

  lemma {:induction false} IdsRecorded<C(!new), A>(suite: Suite<C>, key: string, rs: seq<Record<C, A>>)
    ensures forall i :: 0 <= i < |rs| ==> InMemory(suite, key, rs)[i].sealed.body.decisionId == rs[i].decisionId
    ensures |InTable(suite, key, rs)| <= |rs|
  {
    if rs == [] {
    } else {
      IdsRecorded(suite, key, rs[..|rs| - 1]);
    }
  }

  // The table holds what memory holds exactly when no decision id was reused.
  lemma {:induction false} TableMirrorsMemory<C(!new), A>(suite: Suite<C>, key: string, rs: seq<Record<C, A>>)
    ensures InTable(suite, key, rs) == InMemory(suite, key, rs) <==> DistinctIds(rs)
  {
    if rs == [] {
    } else {
      var front := rs[..|rs| - 1];
      var mem, table := InMemory(suite, key, front), InTable(suite, key, front);
      TableMirrorsMemory(suite, key, front);
      IdsRecorded(suite, key, front);
      IdsRecorded(suite, key, rs);
      var id := rs[|rs| - 1].decisionId;
      assert DistinctIds(rs) ==> DistinctIds(front);
      if table == mem {
        assert HasId(table, id) <==> exists i :: 0 <= i < |front| && rs[i].decisionId == id;
        assert DistinctIds(rs) <==> DistinctIds(front) && !HasId(table, id);
      } else {
        var m := InMemory(suite, key, rs);
        assert m[..|front|] == mem && (table + [m[|front|]])[..|table|] == table;
      }
    }
  }

  lemma {:induction false} TableWithinMemory<C(!new), A>(suite: Suite<C>, key: string, rs: seq<Record<C, A>>,
                                                         e: Entry<C>)
    requires e in InTable(suite, key, rs)
    ensures e in InMemory(suite, key, rs)
  {
    if e in InTable(suite, key, rs[..|rs| - 1]) {
      TableWithinMemory(suite, key, rs[..|rs| - 1], e);
    } else {
      assert e == InMemory(suite, key, rs)[|rs| - 1];
    }
  }

  // Reopened under the same key the ledger comes back with the same entries
  // and head exactly when no decision id was reused.
  lemma ReopenRestores<C(!new), A>(suite: Suite<C>, key: string, rs: seq<Record<C, A>>)
    requires suite.SignsOwn() && suite.NoCollision(InMemory(suite, key, rs), InMemory(suite, key, rs))
    ensures var table := InTable(suite, key, rs);
      Intact(suite, suite.pub(key), table) && Head(table) == Head(InMemory(suite, key, rs)) <==> DistinctIds(rs)
  {
    RunIntact(suite, key, rs);
    TableMirrorsMemory(suite, key, rs);
    var table, mem := InTable(suite, key, rs), InMemory(suite, key, rs);
    if Intact(suite, suite.pub(key), table) && Head(table) == Head(mem) {
      forall e | e in table ensures e in mem { TableWithinMemory(suite, key, rs, e); }
      HeadDetermines(suite, suite.pub(key), table, suite.pub(key), mem);
    }
  }

  lemma TableSnoc<C(!new), A>(table: seq<LedgerRow<C, A>>, row: LedgerRow<C, A>)
    ensures EntriesOf(table + [row]) == EntriesOf(table) + [row.entry]
  {
  }

  // The objects themselves: append a run to an empty store, drop the ledger,
  // and open the same table again under the same key.
  method AppendThenReopen<C(!new), A>(suite: Suite<C>, key: string, rs: seq<Record<C, A>>)
    returns (before: seq<Entry<C>>, reopened: Result<Ledger<C, A>, Error>)
    requires suite.SignsOwn()
    ensures before == InMemory(suite, key, rs)
    ensures (reopened.Ok? && reopened.value.entries == before) <==> DistinctIds(rs)
  {
    var backend := new SqliteLedgerBackend<C, A>();
    var first := Ledger.Open(suite, key, suite.pub(key), backend);
    var ledger := first.value;
    for i := 0 to |rs|
      invariant ledger.backend == backend && ledger.suite == suite && ledger.signingKey == key
      invariant fresh(ledger) && fresh(backend)
      invariant KEY_META in backend.meta && backend.meta[KEY_META] == suite.pub(key)
      invariant ledger.entries == InMemory(suite, key, rs[..i])
      invariant EntriesOf(backend.rows) == InTable(suite, key, rs[..i])
    {
      assert rs[..i + 1][..i] == rs[..i];
      ghost var table := backend.rows;
      var r := ledger.Append(rs[i].decisionId, rs[i].content, rs[i].archive);
      TableSnoc(table, LedgerRow(ledger.entries[i], rs[i].archive));
    }
    assert rs[..|rs|] == rs;
    before := ledger.entries;
    RunIntact(suite, key, rs);
    TableMirrorsMemory(suite, key, rs);
    reopened := Ledger.Open(suite, key, suite.pub(key), backend);
  }
}
