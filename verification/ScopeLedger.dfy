// aegis/ap2/scope_ledger.py and aegis/storage/scope_sqlite.py: the objects, the
// store that shares them, the store that copies them, and the ledger over both.
module ScopeLedger {
  import opened Wrappers
  import opened ScopeState

  class OpenMandateScope {
    var mandateId: string
    var remainingCount: int
    var remainingValue: real
    var consumedHashes: set<string>
    var outstanding: set<string>

    function State(): Scope
      reads this
    {
      Scope(mandateId, remainingCount, remainingValue, consumedHashes, outstanding)
    }

    constructor (s: Scope)
      ensures State() == s
    {
      mandateId, remainingCount, remainingValue := s.mandateId, s.remainingCount, s.remainingValue;
      consumedHashes, outstanding := s.consumed, s.outstanding;
    }
  }

  // ---- JSON arrays of hashes ----

  predicate LexLe(a: string, b: string) {
    if a == [] then true
    else if b == [] then false
    else a[0] < b[0] || (a[0] == b[0] && LexLe(a[1..], b[1..]))
  }

  lemma {:induction false} LexTotal(a: string, b: string)
    ensures LexLe(a, b) || LexLe(b, a)
  {
    if a == [] || b == [] {
    } else {
      LexTotal(a[1..], b[1..]);
    }
  }

  lemma {:induction false} LexTransitive(a: string, b: string, c: string)
    requires LexLe(a, b) && LexLe(b, c)
    ensures LexLe(a, c)
  {
    if a == [] || !(a[0] == b[0] == c[0]) {
    } else {
      LexTransitive(a[1..], b[1..], c[1..]);
    }
  }

  ghost predicate SortedHashes(a: seq<string>) {
    forall i, j :: 0 <= i < j < |a| ==> LexLe(a[i], a[j])
  }

  function Elements(a: seq<string>): set<string> {
    set x | x in a
  }

  // json.dumps(sorted(s)): nothing lost, nothing twice, in order.
  method SortedArray(s: set<string>) returns (a: seq<string>)
    ensures Elements(a) == s && |a| == |s| && SortedHashes(a)
  {
    a := [];
    var left := s;
    while left != {}
      invariant left <= s && Elements(a) == s - left && |a| + |left| == |s|
      invariant SortedHashes(a)
    {
      var x :| x in left;
      var k := InsertionPoint(a, x);
      InsertedSorted(a, x, k);
      a := a[..k] + [x] + a[k..];
      left := left - {x};
    }
  }

  method InsertionPoint(a: seq<string>, x: string) returns (k: nat)
    ensures k <= |a| && (k > 0 ==> LexLe(a[k - 1], x))
    ensures forall j :: k <= j < |a| ==> !LexLe(a[j], x)
  {
    k := |a|;
    while k > 0 && !LexLe(a[k - 1], x)
      invariant k <= |a|
      invariant forall j :: k <= j < |a| ==> !LexLe(a[j], x)
    {
      k := k - 1;
    }
  }

  lemma InsertedSorted(a: seq<string>, x: string, k: nat)
    requires SortedHashes(a) && k <= |a| && forall j :: k <= j < |a| ==> !LexLe(a[j], x)
    requires k > 0 ==> LexLe(a[k - 1], x)
    ensures var b := a[..k] + [x] + a[k..];
      SortedHashes(b) && Elements(b) == Elements(a) + {x} && |b| == |a| + 1
  {
    var b := a[..k] + [x] + a[k..];
    forall j | 0 <= j < k ensures LexLe(a[j], x) {
      if j < k - 1 { LexTransitive(a[j], a[k - 1], x); }
    }
    forall j | k <= j < |a| ensures LexLe(x, a[j]) { LexTotal(a[j], x); }
    forall i, j | 0 <= i < j < |b| ensures LexLe(b[i], b[j]) {}
    forall y ensures y in Elements(b) <==> y in Elements(a) || y == x {
      if y in a {
        var i :| 0 <= i < |a| && a[i] == y;
        assert b[if i < k then i else i + 1] == y;
      }
      assert b[k] == x;
    }
  }

  // ---- Stores ----

  // Hands out the very object that was put in.
  class MemoryScopeStore {
    var scopes: map<string, OpenMandateScope>

    constructor ()
      ensures scopes == map[]
    {
      scopes := map[];
    }

    method Get(mandateId: string) returns (scope: Option<OpenMandateScope>)
      ensures scope == if mandateId in scopes then Some(scopes[mandateId]) else None
    {
      scope := if mandateId in scopes then Some(scopes[mandateId]) else None;
    }

    method Put(scope: OpenMandateScope)
      modifies this
      ensures scopes == old(scopes)[scope.mandateId := scope]
    {
      scopes := scopes[scope.mandateId := scope];
    }
  }

  datatype ScopeRow = ScopeRow(count: int, value: real, consumed: seq<string>, outstanding: seq<string>)

  function Decode(mandateId: string, row: ScopeRow): Scope {
    Scope(mandateId, row.count, row.value, Elements(row.consumed), Elements(row.outstanding))
  }

  // Writes rows and rebuilds a fresh object from them on every read.
  class SqliteScopeStore {
    var rows: map<string, ScopeRow>

    constructor ()
      ensures rows == map[]
    {
      rows := map[];
    }

    method Get(mandateId: string) returns (scope: Option<OpenMandateScope>)
      ensures mandateId !in rows ==> scope == None
      ensures mandateId in rows ==>
        scope.Some? && fresh(scope.value) && scope.value.State() == Decode(mandateId, rows[mandateId])
    {
      if mandateId !in rows { return None; }
      var fetched := new OpenMandateScope(Decode(mandateId, rows[mandateId]));
      return Some(fetched);
    }

    method Put(scope: OpenMandateScope)
      modifies this
      ensures rows.Keys == old(rows).Keys + {scope.mandateId}
      ensures forall id :: id in old(rows) && id != scope.mandateId ==> rows[id] == old(rows)[id]
      ensures Decode(scope.mandateId, rows[scope.mandateId]) == scope.State()
      ensures SortedHashes(rows[scope.mandateId].consumed) && SortedHashes(rows[scope.mandateId].outstanding)
    {
      var consumed := SortedArray(scope.consumedHashes);
      var outstanding := SortedArray(scope.outstanding);
      rows := rows[scope.mandateId := ScopeRow(scope.remainingCount, scope.remainingValue, consumed, outstanding)];
    }
  }

  datatype Store = Memory(memory: MemoryScopeStore) | Sqlite(sqlite: SqliteScopeStore) {
    ghost function Objects(): set<object>
      reads if Memory? then {memory} else {}
    {
      if Memory? then {memory} + (set id | id in memory.scopes :: memory.scopes[id]) else {sqlite}
    }

    function Self(): object {
      if Memory? then memory else sqlite
    }

    // What a fetch would see.
    ghost function Stored(mandateId: string): Option<Scope>
      reads if Memory? then {memory} else {sqlite}
      reads Objects()
    {
      match this
      case Memory(m) => if mandateId in m.scopes then Some(m.scopes[mandateId].State()) else None
      case Sqlite(q) => if mandateId in q.rows then Some(Decode(mandateId, q.rows[mandateId])) else None
    }

    // Each object in the shared store is filed under its own mandate.
    ghost predicate Filed()
      reads if Memory? then {memory} else {sqlite}
      reads Objects()
    {
      Memory? ==> forall id :: id in memory.scopes ==> memory.scopes[id].mandateId == id
    }
  }

  class ScopeLedger {
    const signed: string -> bool
    const store: Store

    // `signed` stands for checking a receipt's signature under the verifier key.
    constructor (signed: string -> bool, store: Store)
      ensures this.signed == signed && this.store == store
    {
      this.signed := signed;
      this.store := store;
    }

    // The handle sees what the store holds for its mandate, and in the
    // shared store it is the very object held.
    ghost predicate Live(scope: OpenMandateScope)
      reads scope, store.Objects()
      reads if store.Memory? then {store.memory} else {store.sqlite}
    {
      && store.Filed() && store.Stored(scope.mandateId) == Some(scope.State())
      && (store.Memory? ==> store.memory.scopes[scope.mandateId] == scope)
    }

    method Put(scope: OpenMandateScope)
      requires store.Filed()
      modifies store.Self()
      ensures Live(scope)
      ensures forall id :: id != scope.mandateId ==> store.Stored(id) == old(store.Stored(id))
    {
      match store {
        case Memory(m) => m.Put(scope);
        case Sqlite(q) => q.Put(scope);
      }
    }

    method Fetch(mandateId: string) returns (scope: Option<OpenMandateScope>)
      requires store.Filed()
      ensures scope.None? <==> store.Stored(mandateId).None?
      ensures scope.Some? ==> Live(scope.value) && scope.value.mandateId == mandateId
      ensures scope.Some? && store.Sqlite? ==> fresh(scope.value)
    {
      match store {
        case Memory(m) => scope := m.Get(mandateId);
        case Sqlite(q) => scope := q.Get(mandateId);
      }
    }

    // Never silently resets live authority.
    method OpenScope(mandateId: string, count: int, value: real) returns (scope: OpenMandateScope)
      requires store.Filed()
      modifies store.Self()
      ensures Live(scope) && scope.mandateId == mandateId
      ensures var before := old(store.Stored(mandateId));
        scope.State() == if before.Some? then before.value else Fresh(mandateId, count, value)
    {
      var existing := Fetch(mandateId);
      if existing.Some? { return existing.value; }
      scope := new OpenMandateScope(Fresh(mandateId, count, value));
      Put(scope);
    }

    // On any handle, however old: the outcome is read off the handle, and a
    // write replaces whatever the store held.
    method Reserve(scope: OpenMandateScope, closedSdHash: string, amount: real) returns (refused: Option<Error>)
      requires store.Filed()
      modifies scope`outstanding, store.Self()
      ensures refused == Refusal(old(scope.State()), closedSdHash, amount)
      ensures scope.State() == ScopeState.Reserve(old(scope.State()), closedSdHash, amount)
      ensures store.Filed() && (refused.None? ==> Live(scope))
      ensures forall id :: id != scope.mandateId || refused.Some? ==> store.Stored(id) == old(store.Stored(id))
      ensures old(Live(scope)) ==> Live(scope)
    {
      if closedSdHash in scope.consumedHashes { return Some(DoubleSpend); }
      if scope.outstanding != {} && closedSdHash !in scope.outstanding { return Some(DoubleSpend); }
      if closedSdHash in scope.outstanding { return Some(DoubleSpend); }
      if scope.remainingCount < 1 { return Some(ScopeExceeded); }
      if amount > scope.remainingValue + TOLERANCE { return Some(ScopeExceeded); }
      scope.outstanding := scope.outstanding + {closedSdHash};
      assert forall id :: id != scope.mandateId ==> store.Stored(id) == old(store.Stored(id));
      Put(scope);
      return None;
    }

    method ApplyReceipt(scope: OpenMandateScope, receipt: Receipt) returns (refused: Option<Error>)
      requires store.Filed()
      modifies scope`remainingCount, scope`remainingValue, scope`consumedHashes, scope`outstanding, store.Self()
      ensures refused == if Genuine(receipt, signed) then None else Some(ReceiptInvalid)
      ensures scope.State() == Step(old(scope.State()), Receive(receipt), signed)
      ensures store.Filed() && (refused.None? ==> Live(scope))
      ensures forall id :: id != scope.mandateId || refused.Some? ==> store.Stored(id) == old(store.Stored(id))
      ensures old(Live(scope)) ==> Live(scope)
    {
      if receipt.rawJwt == "" || !signed(receipt.rawJwt) { return Some(ReceiptInvalid); }
      var h := receipt.reference;
      scope.outstanding := scope.outstanding - {h};
      if receipt.result == "success" {
        if h in scope.consumedHashes {
          assert forall id :: id != scope.mandateId ==> store.Stored(id) == old(store.Stored(id));
          Put(scope);
          return None;
        }
        scope.consumedHashes := scope.consumedHashes + {h};
        scope.remainingCount := scope.remainingCount - 1;
        scope.remainingValue := scope.remainingValue - receipt.amount;
      }
      assert forall id :: id != scope.mandateId ==> store.Stored(id) == old(store.Stored(id));
      Put(scope);
      return None;
    }

    // One event on any handle.
    method Perform(scope: OpenMandateScope, e: Event) returns (refused: Option<Error>)
      requires store.Filed()
      modifies scope`remainingCount, scope`remainingValue, scope`consumedHashes, scope`outstanding, store.Self()
      ensures refused == Outcome(old(scope.State()), e, signed)
      ensures scope.State() == Step(old(scope.State()), e, signed)
      ensures store.Filed()
      ensures store.Stored(scope.mandateId)
           == StoredAfter(old(store.Stored(scope.mandateId)), old(scope.State()), e, signed)
      ensures forall id :: id != scope.mandateId ==> store.Stored(id) == old(store.Stored(id))
      ensures old(Live(scope)) ==> Live(scope)
    {
      match e {
        case TryReserve(hash, amount) => refused := Reserve(scope, hash, amount);
        case Receive(r) => refused := ApplyReceipt(scope, r);
      }
    }
  }

  // One event, on the handle or on one fetched anew.
  method MaybeRefetch(ledger: ScopeLedger, scope: OpenMandateScope, refetch: bool, e: Event)
    returns (next: OpenMandateScope, outcome: Option<Error>)
    requires ledger.Live(scope)
    modifies scope, ledger.store.Self()
    ensures ledger.Live(next) && (next == scope || fresh(next))
    ensures next.State() == Step(old(scope.State()), e, ledger.signed)
    ensures outcome == Outcome(old(scope.State()), e, ledger.signed)
  {
    next := scope;
    if refetch {
      var again := ledger.Fetch(scope.mandateId);
      next := again.value;
    }
    outcome := ledger.Perform(next, e);
  }

  // Over every run, fetching the handle anew before any of the events changes
  // no outcome and no state: with either store the run is the one of the state
  // machine, which knows nothing of fetches.
  method RefetchChangesNothing(ledger: ScopeLedger, scope: OpenMandateScope, es: seq<Event>, refetch: seq<bool>)
    returns (last: OpenMandateScope, outcomes: seq<Option<Error>>)
    requires ledger.Live(scope) && |refetch| == |es|
    modifies scope, ledger.store.Self()
    ensures ledger.Live(last) && last.State() == Run(old(scope.State()), es, ledger.signed)
    ensures |outcomes| == |es| && forall i :: 0 <= i < |es| ==>
      outcomes[i] == Outcome(Run(old(scope.State()), es[..i], ledger.signed), es[i], ledger.signed)
  {
    last, outcomes := scope, [];
    for i := 0 to |es|
      invariant ledger.Live(last) && (last == scope || fresh(last))
      invariant last.State() == Run(old(scope.State()), es[..i], ledger.signed)
      invariant outcomes == Outcomes(old(scope.State()), es[..i], ledger.signed)
    {
      assert es[..i + 1][..i] == es[..i];
      var outcome;
      last, outcome := MaybeRefetch(ledger, last, refetch[i], es[i]);
      outcomes := outcomes + [outcome];
    }
    assert es[..|es|] == es;
    OutcomesLength(old(scope.State()), es, ledger.signed);
    forall i | 0 <= i < |es|
      ensures outcomes[i] == Outcome(Run(old(scope.State()), es[..i], ledger.signed), es[i], ledger.signed)
    {
      OutcomeAt(old(scope.State()), es, ledger.signed, i);
    }
  }

  // ---- A copy fetched before the store moved on ----

  // One event performed on a copy while the store holds something else agrees
  // with the live scope exactly under the condition on the two states.
  method StaleStep(ledger: ScopeLedger, handle: OpenMandateScope, e: Event) returns (refused: Option<Error>)
    requires ledger.store.Filed() && ledger.store.Stored(handle.mandateId).Some?
    modifies handle, ledger.store.Self()
    ensures var stored := old(ledger.store.Stored(handle.mandateId)).value;
      (refused == Outcome(stored, e, ledger.signed)
        && ledger.store.Stored(handle.mandateId) == Some(Step(stored, e, ledger.signed)))
      <==> Indistinguishable(stored, old(handle.State()), e, ledger.signed)
  {
    ghost var stored := ledger.store.Stored(handle.mandateId).value;
    StepAgreesExactly(stored, handle.State(), e, ledger.signed);
    refused := ledger.Perform(handle, e);
  }

  // Two fetches, two reservations: over the copying store both go through, and
  // the second write forgets the first reservation.
  method StaleHandleForgets(ledger: ScopeLedger, mandateId: string, a: string, amountA: real, b: string, amountB: real)
    returns (first: Option<Error>, second: Option<Error>)
    requires ledger.store.Sqlite? && ledger.store.Stored(mandateId).Some? && a != b
    requires var s := ledger.store.Stored(mandateId).value;
      Refusal(s, a, amountA).None? && Refusal(s, b, amountB).None?
    modifies ledger.store.Self()
    ensures first == second == None
    ensures ledger.store.Stored(mandateId) == Some(old(ledger.store.Stored(mandateId)).value.(outstanding := {b}))
  {
    var x := ledger.Fetch(mandateId);
    var y := ledger.Fetch(mandateId);
    ghost var s := y.value.State();
    first := ledger.Reserve(x.value, a, amountA);
    assert y.value.State() == s && s.outstanding + {b} == {b};
    second := ledger.Reserve(y.value, b, amountB);
  }

  // Over the sharing store the two fetches are one object, and the second
  // reservation is refused.
  method SharedHandleRefuses(ledger: ScopeLedger, mandateId: string, a: string, amountA: real, b: string, amountB: real)
    returns (first: Option<Error>, second: Option<Error>)
    requires ledger.store.Memory? && ledger.store.Filed() && ledger.store.Stored(mandateId).Some? && a != b
    requires Refusal(ledger.store.Stored(mandateId).value, a, amountA).None?
    modifies ledger.store.Self(), ledger.store.Objects()
    ensures first == None && second == Some(DoubleSpend)
    ensures ledger.store.Stored(mandateId) == Some(old(ledger.store.Stored(mandateId)).value.(outstanding := {a}))
  {
    var x := ledger.Fetch(mandateId);
    var y := ledger.Fetch(mandateId);
    ghost var s := x.value.State();
    assert s.outstanding + {a} == {a};
    first := ledger.Reserve(x.value, a, amountA);
    second := ledger.Reserve(y.value, b, amountB);
  }
}
