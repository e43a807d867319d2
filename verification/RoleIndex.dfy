/** The object dictionary and its role index: a lookup table that is dropped by every
    definition change, also a failing one, and rebuilt by the next lookup. */
module RoleIndex {
  import opened Wrappers

  type Key = (nat, nat)
  type Role = Option<string>

  datatype Definition = Definition(key: Key, role: Role, attributes: string, default: int)

  datatype Entry = Entry(definition: Definition, value: int)

  /** Exactly one match, or an error that tells how many there were. */
  datatype Lookup = Found(definition: Definition) | NotOne(matches: nat)

  /** Supplied changes of an overlay; an absent or empty text keeps the current one. */
  datatype Change = Change(role: Role, attributes: string, default: Option<int>)

  datatype Op =
    | Define(definition: Definition)
    | Overlay(key: Key, change: Change)
    | FailDefine                       // the definition raises before it is stored
    | FailOverlay
    | Write(key: Key, value: int)
    | LookUp(role: Role)

  // ---- The dictionary alone ----

  /** The position of a key; entries keep their order of insertion. */
  function Position(entries: seq<Entry>, key: Key): (i: Option<nat>)
    ensures i.Some? ==> i.value < |entries| && entries[i.value].definition.key == key
  {
    if entries == [] then None
    else
      var n := |entries| - 1;
      if entries[n].definition.key == key then Some(n) else Position(entries[..n], key)
  }

  function Put(entries: seq<Entry>, e: Entry): seq<Entry> {
    match Position(entries, e.definition.key)
    case None => entries + [e]
    case Some(i) => entries[i := e]
  }

  function Merge(d: Definition, c: Change): Definition {
    d.(role := if c.role in {None, Some("")} then d.role else c.role,
       attributes := if c.attributes == "" then d.attributes else c.attributes,
       default := if c.default.None? then d.default else c.default.value)
  }

  function Overlaid(entries: seq<Entry>, key: Key, c: Change): seq<Entry> {
    match Position(entries, key)
    case None =>
      var default := if c.default.None? then 0 else c.default.value;
      Put(entries, Entry(Definition(key, c.role, c.attributes, default), default))
    case Some(i) =>
      var value := if c.default.None? then entries[i].value else c.default.value;
      entries[i := Entry(Merge(entries[i].definition, c), value)]
  }

  /** A write to an unknown key raises. */
  function Written(entries: seq<Entry>, key: Key, value: int): seq<Entry> {
    match Position(entries, key)
    case None => entries
    case Some(i) => entries[i := entries[i].(value := value)]
  }

  function Changed(entries: seq<Entry>, op: Op): seq<Entry> {
    match op
    case Define(d) => Put(entries, Entry(d, d.default))
    case Overlay(key, change) => Overlaid(entries, key, change)
    case Write(key, value) => Written(entries, key, value)
    case _ => entries
  }

  /** All definitions of a role, by scanning every entry. */
  function Matches(entries: seq<Entry>, role: Role): seq<Definition> {
    if entries == [] then []
    else
      var last := entries[|entries| - 1].definition;
      Matches(entries[..|entries| - 1], role) + (if last.role == role then [last] else [])
  }

  function Pick(matches: seq<Definition>): Lookup {
    if |matches| == 1 then Found(matches[0]) else NotOne(|matches|)
  }

  /** The lookup of the dictionary without an index. */
  function Scan(entries: seq<Entry>, role: Role): Lookup {
    Pick(Matches(entries, role))
  }

  // ---- The dictionary with its index ----

  type Index = map<Role, seq<Definition>>

  datatype Od = Od(entries: seq<Entry>, index: Option<Index>)

  function Added(index: Index, d: Definition): Index {
    index[d.role := (if d.role in index then index[d.role] else []) + [d]]
  }

  function Build(entries: seq<Entry>): Index {
    if entries == [] then map[]
    else Added(Build(entries[..|entries| - 1]), entries[|entries| - 1].definition)
  }

  function Indexed(od: Od): Od {
    if od.index.None? then od.(index := Some(Build(od.entries))) else od
  }

  function Answer(od: Od, role: Role): Lookup {
    match od.index
    case None => NotOne(0)
    case Some(index) => Pick(if role in index then index[role] else [])
  }

  /** Definition changes drop the index, a value write leaves it, a lookup builds it. */
  function Next(od: Od, op: Op): Od {
    match op
    case LookUp(_) => Indexed(od)
    case Write(_, _) => od.(entries := Changed(od.entries, op))
    case _ => Od(Changed(od.entries, op), None)
  }

  /** The answers to the lookups of a sequence of operations, with the index ... */
  function Answers(od: Od, ops: seq<Op>): seq<Lookup>
    decreases |ops|
  {
    if ops == [] then []
    else
      (if ops[0].LookUp? then [Answer(Indexed(od), ops[0].role)] else []) + Answers(Next(od, ops[0]), ops[1..])
  }

  /** ... and by linear scans. */
  function Scans(entries: seq<Entry>, ops: seq<Op>): seq<Lookup>
    decreases |ops|
  {
    if ops == [] then []
    else
      (if ops[0].LookUp? then [Scan(entries, ops[0].role)] else []) + Scans(Changed(entries, ops[0]), ops[1..])
  }

  // ---- Coherence ----

  lemma {:induction false} BuildFinds(entries: seq<Entry>, role: Role)
    ensures (if role in Build(entries) then Build(entries)[role] else []) == Matches(entries, role)
  {
    if entries != [] {
      BuildFinds(entries[..|entries| - 1], role);
    }
  }

  predicate Coherent(od: Od) {
    od.index.Some? ==> od.index.value == Build(od.entries)
  }

  predicate SameDefinitions(a: seq<Entry>, b: seq<Entry>) {
    |a| == |b| && forall i :: 0 <= i < |a| ==> a[i].definition == b[i].definition
  }

  lemma {:induction false} BuildIgnoresValues(a: seq<Entry>, b: seq<Entry>)
    requires SameDefinitions(a, b)
    ensures Build(a) == Build(b)
    decreases |a|
  {
    if a != [] {
      BuildIgnoresValues(a[..|a| - 1], b[..|b| - 1]);
    }
  }

  lemma NextKeepsCoherent(od: Od, op: Op)
    requires Coherent(od)
    ensures Coherent(Next(od, op)) && Next(od, op).entries == Changed(od.entries, op)
  {
    hide Build;
    if op.Write? {
      BuildIgnoresValues(od.entries, Written(od.entries, op.key, op.value));
    }
  }

  lemma CoherentAnswers(od: Od, role: Role)
    requires Coherent(od)
    ensures Answer(Indexed(od), role) == Scan(od.entries, role)
  {
    hide Build, Matches;
    BuildFinds(od.entries, role);
  }

  /** The index cannot be told from the linear scan: any sequence of definitions, overlays
      (also failing ones), writes and lookups gives the same definitions and the same
      match-count errors. */
  lemma {:induction false} IndexRefinesScan(od: Od, ops: seq<Op>)
    requires Coherent(od)
    ensures Answers(od, ops) == Scans(od.entries, ops)
    decreases |ops|
  {
    hide Coherent, Next, Changed, Answer, Scan, Indexed;
    if ops != [] {
      NextKeepsCoherent(od, ops[0]);
      if ops[0].LookUp? {
        CoherentAnswers(od, ops[0].role);
      }
      IndexRefinesScan(Next(od, ops[0]), ops[1..]);
    }
  }

  /** What a scan means: found is the only definition of its role. */
  lemma {:induction false} MatchesAreAll(entries: seq<Entry>, role: Role)
    ensures forall d :: d in Matches(entries, role) <==>
              d.role == role && exists i :: 0 <= i < |entries| && entries[i].definition == d
  {
    if entries != [] {
      var n := |entries| - 1;
      MatchesAreAll(entries[..n], role);
      forall d
        ensures d in Matches(entries, role) <==>
                  d.role == role && exists i :: 0 <= i < |entries| && entries[i].definition == d
      {
        if exists i :: 0 <= i < |entries| && entries[i].definition == d {
          var i :| 0 <= i < |entries| && entries[i].definition == d;
          if i < n {
            assert entries[..n][i].definition == d;
          }
        }
      }
    }
  }

  // ---- What the operations mean ----

  /** No key twice. */
  predicate Unique(entries: seq<Entry>) {
    forall i, k :: 0 <= i < k < |entries| ==> entries[i].definition.key != entries[k].definition.key
  }

  /** The entry of a key. */
  ghost predicate Holds(entries: seq<Entry>, key: Key, e: Entry) {
    e in entries && e.definition.key == key
  }

  ghost predicate HoldsOnly(entries: seq<Entry>, key: Key, e: Entry) {
    Holds(entries, key, e) && forall x :: Holds(entries, key, x) ==> x == e
  }

  lemma {:induction false} PositionIs(entries: seq<Entry>, key: Key)
    ensures Position(entries, key).None? ==> forall i :: 0 <= i < |entries| ==> entries[i].definition.key != key
  {
    if entries != [] {
      PositionIs(entries[..|entries| - 1], key);
    }
  }

  /** Whatever happens to a dictionary, no key appears twice. */
  lemma ChangeKeepsUnique(entries: seq<Entry>, op: Op)
    requires Unique(entries)
    ensures Unique(Changed(entries, op))
  {
    hide Position, Merge;
    match op
    case Define(d) => PositionIs(entries, d.key);
    case Overlay(key, change) =>
      PositionIs(entries, key);
      MergeKeepsKey(entries, key, change);
    case _ =>
  }

  lemma MergeKeepsKey(entries: seq<Entry>, key: Key, change: Change)
    ensures forall d: Definition :: Merge(d, change).key == d.key
  {
  }

  /** Every other key keeps what it holds. */
  ghost predicate OthersHold(before: seq<Entry>, after: seq<Entry>, key: Key) {
    forall k, e :: k != key ==> (Holds(before, k, e) <==> Holds(after, k, e))
  }

  /** Putting an entry under a key leaves exactly that entry there. */
  lemma UpdateHolds(entries: seq<Entry>, i: nat, e: Entry)
    requires Unique(entries) && i < |entries| && entries[i].definition.key == e.definition.key
    ensures HoldsOnly(entries[i := e], e.definition.key, e) && OthersHold(entries, entries[i := e], e.definition.key)
  {
    var after, key := entries[i := e], e.definition.key;
    assert after[i] == e;
    forall k, x | k != key
      ensures Holds(entries, k, x) <==> Holds(after, k, x)
    {
      if Holds(entries, k, x) {
        var n :| 0 <= n < |entries| && entries[n] == x;
        assert after[n] == x;
      }
      if Holds(after, k, x) {
        var n :| 0 <= n < |after| && after[n] == x;
        assert entries[n] == x;
      }
    }
  }

  lemma AppendHolds(entries: seq<Entry>, e: Entry)
    requires forall i :: 0 <= i < |entries| ==> entries[i].definition.key != e.definition.key
    ensures HoldsOnly(entries + [e], e.definition.key, e) && OthersHold(entries, entries + [e], e.definition.key)
  {
  }

  /** A definition is stored with its default as value, in place of an older one, and every
      other object stays. */
  lemma DefinitionIsStored(entries: seq<Entry>, d: Definition)
    requires Unique(entries)
    ensures var after := Changed(entries, Define(d));
            HoldsOnly(after, d.key, Entry(d, d.default)) && OthersHold(entries, after, d.key)
  {
    hide Position, Holds, OthersHold;
    PositionIs(entries, d.key);
    match Position(entries, d.key)
    case None => AppendHolds(entries, Entry(d, d.default));
    case Some(i) => UpdateHolds(entries, i, Entry(d, d.default));
  }

  /** A written value is read back under the same definition; an unknown key changes nothing. */
  lemma WriteIsStored(entries: seq<Entry>, key: Key, value: int)
    requires Unique(entries)
    ensures var after := Changed(entries, Write(key, value));
            && (forall e :: Holds(entries, key, e) ==> Holds(after, key, Entry(e.definition, value)))
            && OthersHold(entries, after, key) && |after| == |entries|
            && ((forall e :: !Holds(entries, key, e)) ==> after == entries)
  {
    hide Position;
    PositionIs(entries, key);
    match Position(entries, key)
    case None =>
    case Some(i) =>
      UpdateHolds(entries, i, entries[i].(value := value));
      OnlyOne(entries, key, i);
      assert Holds(entries, key, entries[i]);
  }

  lemma OnlyOne(entries: seq<Entry>, key: Key, i: nat)
    requires Unique(entries) && i < |entries| && entries[i].definition.key == key
    ensures forall e :: Holds(entries, key, e) ==> e == entries[i]
  {
  }

  /** What an overlay supplies replaces what was there, the rest stays; the value changes
      only with a supplied default. */
  predicate Overlays(previous: Entry, e: Entry, c: Change) {
    && e.definition.key == previous.definition.key
    && (if c.role == None || c.role == Some("") then e.definition.role == previous.definition.role
        else e.definition.role == c.role)
    && (if c.attributes == "" then e.definition.attributes == previous.definition.attributes
        else e.definition.attributes == c.attributes)
    && (if c.default == None then e.definition.default == previous.definition.default && e.value == previous.value
        else e.definition.default == c.default.value == e.value)
  }

  /** An overlay merges into the object it names, or defines it, and leaves every other. */
  lemma OverlayIsMerged(entries: seq<Entry>, key: Key, c: Change)
    requires Unique(entries)
    ensures var after := Changed(entries, Overlay(key, c));
            && (forall e :: Holds(entries, key, e) ==> exists x :: Holds(after, key, x) && Overlays(e, x, c))
            && ((forall e :: !Holds(entries, key, e)) ==>
                  exists x :: Holds(after, key, x) && x.definition.role == c.role
                              && x.definition.attributes == c.attributes && x.value == x.definition.default)
            && OthersHold(entries, after, key)
  {
    hide Position, OthersHold;
    PositionIs(entries, key);
    var after := Changed(entries, Overlay(key, c));
    match Position(entries, key)
    case None =>
      var default := if c.default.None? then 0 else c.default.value;
      var x := Entry(Definition(key, c.role, c.attributes, default), default);
      AppendHolds(entries, x);
      assert after == entries + [x];
      assert Holds(after, key, x);
    case Some(i) =>
      var x := after[i];
      UpdateHolds(entries, i, x);
      OnlyOne(entries, key, i);
      assert Overlays(entries[i], x, c) && Holds(after, key, x);
      assert Holds(entries, key, entries[i]);
  }

  /** From a definition on, a lookup finds it by its role, unless another object has the
      same role. */
  lemma DefinedIsFound(od: Od, d: Definition)
    requires Coherent(od) && Unique(od.entries)
    requires forall i :: 0 <= i < |od.entries| ==>
               od.entries[i].definition.role != d.role || od.entries[i].definition.key == d.key
    ensures Answers(od, [Define(d), LookUp(d.role)]) == [Found(d)]
  {
    hide Position, Matches, Build, Holds, OthersHold;
    var ops := [Define(d), LookUp(d.role)];
    var after := Changed(od.entries, Define(d));
    IndexRefinesScan(od, ops);
    ChangeKeepsUnique(od.entries, Define(d));
    var at := StoredAt(od.entries, d);
    OnlyMatch(after, d, at);
    assert ops[1..] == [LookUp(d.role)] && ops[1..][1..] == [];
    assert Scans(after, ops[1..]) == [Scan(after, d.role)] + Scans(after, []);
    assert Scans(od.entries, ops) == [] + Scans(after, ops[1..]);
  }

  /** Where the definition stands, alone with its role. */
  lemma StoredAt(entries: seq<Entry>, d: Definition) returns (at: nat)
    requires Unique(entries)
    requires forall i :: 0 <= i < |entries| ==> entries[i].definition.role != d.role || entries[i].definition.key == d.key
    ensures var after := Changed(entries, Define(d));
            && at < |after| && after[at].definition == d
            && forall i :: 0 <= i < |after| && i != at ==> after[i].definition.role != d.role
  {
    hide Position;
    PositionIs(entries, d.key);
    match Position(entries, d.key)
    case None => at := |entries|;
    case Some(i) => at := i;
  }

  lemma {:induction false} NoMatch(entries: seq<Entry>, role: Role)
    requires forall i :: 0 <= i < |entries| ==> entries[i].definition.role != role
    ensures Matches(entries, role) == []
  {
    if entries != [] {
      NoMatch(entries[..|entries| - 1], role);
    }
  }

  lemma {:induction false} OnlyMatch(entries: seq<Entry>, d: Definition, at: nat)
    requires at < |entries| && entries[at].definition == d
    requires forall i :: 0 <= i < |entries| && i != at ==> entries[i].definition.role != d.role
    ensures Matches(entries, d.role) == [d]
    decreases |entries|
  {
    var n := |entries| - 1;
    if at == n {
      NoMatch(entries[..n], d.role);
    } else {
      OnlyMatch(entries[..n], d, at);
    }
  }

  // ---- The dictionary as an object ----

  class VirtualOdModel {
    var entries: seq<Entry>
    var index: Option<Index>

    constructor (entries: seq<Entry>)
      ensures View() == Indexed(Od(entries, None))
    {
      this.entries, this.index := entries, None;
      new;
      Rebuild();
    }

    ghost function View(): Od
      reads this
    {
      Od(entries, index)
    }

    method Rebuild()
      modifies this`index
      ensures index == Some(Build(entries))
    {
      var rebuilt: Index := map[];
      for i := 0 to |entries|
        invariant rebuilt == Build(entries[..i])
      {
        var d := entries[i].definition;
        if d.role !in rebuilt {
          rebuilt := rebuilt[d.role := []];
        }
        rebuilt := rebuilt[d.role := rebuilt[d.role] + [d]];
        assert entries[..i + 1][..i] == entries[..i];
        assert rebuilt == Added(Build(entries[..i]), d);
      }
      assert entries[..|entries|] == entries;
      index := Some(rebuilt);
    }

    method DefineEntry(d: Definition)
      modifies this
      ensures View() == Next(old(View()), Define(d))
    {
      entries := Put(entries, Entry(d, d.default));
      index := None;
    }

    /** The change is applied unless it raises; the index is dropped either way. */
    method OverlayEntry(key: Key, change: Change, raises: bool)
      modifies this
      ensures View() == Next(old(View()), if raises then FailOverlay else Overlay(key, change))
    {
      if !raises {
        entries := Overlaid(entries, key, change);
      }
      index := None;
    }

    method WriteValue(key: Key, value: int)
      modifies this`entries
      ensures View() == Next(old(View()), Write(key, value))
    {
      var i := Position(entries, key);
      if i.Some? {
        entries := entries[i.value := entries[i.value].(value := value)];
      }
    }

    method DefinitionByRole(role: Role) returns (found: Lookup)
      requires Coherent(View())
      modifies this`index
      ensures View() == Next(old(View()), LookUp(role))
      ensures found == Scan(entries, role)
    {
      CoherentAnswers(View(), role);
      if index.None? {
        Rebuild();
      }
      var matches := if role in index.value then index.value[role] else [];
      if |matches| != 1 {
        return NotOne(|matches|);
      }
      return Found(matches[0]);
    }
  }
}
