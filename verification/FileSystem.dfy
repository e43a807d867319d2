/** A directory of files with crashes: directory operations reach the disk in order, and a
    file that was not synchronised may hold anything after a crash. */
module FileSystem {

  type Name = string

  datatype File<+C> = File(content: C, synced: bool)

  type Directory<+C> = map<Name, File<C>>

  datatype Op<+C> =
    | Fill(name: Name, content: C)     // create or overwrite, not yet synchronised
    | Sync(name: Name)
    | Replace(source: Name, target: Name)
    | SyncDirectory
    | Unlink(name: Name)

  function Apply<C>(d: Directory<C>, op: Op<C>): Directory<C> {
    match op
    case Fill(name, content) => d[name := File(content, false)]
    case Sync(name) => if name in d then d[name := d[name].(synced := true)] else d
    case Replace(source, target) => if source in d then (d - {source})[target := d[source]] else d
    case SyncDirectory => d
    case Unlink(name) => d - {name}
  }

  function ApplyAll<C>(d: Directory<C>, ops: seq<Op<C>>): Directory<C>
    decreases |ops|
  {
    if ops == [] then d else Apply(ApplyAll(d, ops[..|ops| - 1]), ops[|ops| - 1])
  }

  /** What a restart may find where this directory was on disk. */
  predicate Survives<C(==)>(d: Directory<C>, found: Directory<C>) {
    && found.Keys == d.Keys
    && forall n :: n in d && d[n].synced ==> found[n] == d[n]
  }

  /** A crash while these operations run: some prefix of them is on disk. */
  ghost predicate Crash<C>(d: Directory<C>, ops: seq<Op<C>>, found: Directory<C>) {
    exists k :: 0 <= k <= |ops| && Survives(ApplyAll(d, ops[..k]), found)
  }

  lemma {:induction false} ApplyAllAppend<C>(d: Directory<C>, a: seq<Op<C>>, b: seq<Op<C>>)
    ensures ApplyAll(d, a + b) == ApplyAll(ApplyAll(d, a), b)
    decreases |b|
  {
    if b == [] {
      assert a + b == a;
    } else {
      var n := |b| - 1;
      ApplyAllAppend(d, a, b[..n]);
      assert (a + b)[..|a| + n] == a + b[..n];
    }
  }

  /** A crash in a sequence of two parts is a crash in one of them. */
  lemma CrashInParts<C>(d: Directory<C>, a: seq<Op<C>>, b: seq<Op<C>>, found: Directory<C>)
    requires Crash(d, a + b, found)
    ensures Crash(d, a, found) || Crash(ApplyAll(d, a), b, found)
  {
    var k :| 0 <= k <= |a + b| && Survives(ApplyAll(d, (a + b)[..k]), found);
    if k <= |a| {
      assert (a + b)[..k] == a[..k];
    } else {
      assert (a + b)[..k] == a + b[..k - |a|];
      ApplyAllAppend(d, a, b[..k - |a|]);
    }
  }

  // ---- Writing a file beside its target and replacing it ----

  /** Write a temporary file, synchronise it, move it over the target, synchronise the
      directory. */
  function Replacing<C>(target: Name, temporary: Name, content: C): (ops: seq<Op<C>>)
    ensures |ops| == 4
  {
    [Fill(temporary, content), Sync(temporary), Replace(temporary, target), SyncDirectory]
  }

  /** The same with an error before the n-th operation; the temporary file is removed in
      any case. */
  function Attempt<C>(target: Name, temporary: Name, content: C, n: nat): (ops: seq<Op<C>>)
  {
    Replacing(target, temporary, content)[..if n < 4 then n else 4] + [Unlink(temporary)]
  }

  lemma AttemptEnds<C>(d: Directory<C>, target: Name, temporary: Name, content: C, n: nat)
    ensures ApplyAll(d, Attempt(target, temporary, content, n))
            == Apply(ApplyAll(d, Replacing(target, temporary, content)[..if n < 4 then n else 4]), Unlink(temporary))
  {
    hide Replacing, Apply;
    var ops, k := Attempt(target, temporary, content, n), if n < 4 then n else 4;
    assert ops[..k] == Replacing(target, temporary, content)[..k];
  }

  /** Every name but these two is as it was. */
  ghost predicate OthersKept<C>(d: Directory<C>, found: Directory<C>, target: Name, temporary: Name) {
    forall n :: n !in {target, temporary} ==>
      (n in d <==> n in found) && (n in d && d[n].synced ==> found[n] == d[n])
  }

  /** The target is the old file or the complete new content. */
  predicate OldOrNew<C(==)>(d: Directory<C>, found: Directory<C>, target: Name, content: C) {
    if target in found then found[target] == File(content, true) || (target in d && found[target] == d[target])
    else target !in d
  }

  /** Old or new at the target, everything else but the temporary file untouched. */
  ghost predicate OnTheWay<C>(d: Directory<C>, e: Directory<C>, target: Name, temporary: Name, content: C) {
    && (target in d ==> target in e)
    && (target in e ==> e[target] == File(content, true) || (target in d && e[target] == d[target]))
    && (forall m :: m !in {target, temporary} ==> (m in d <==> m in e) && (m in d ==> e[m] == d[m]))
  }

  lemma PrefixOnTheWay<C>(d: Directory<C>, target: Name, temporary: Name, content: C, k: nat)
    requires target != temporary && k <= 4
    ensures OnTheWay(d, ApplyAll(d, Replacing(target, temporary, content)[..k]), target, temporary, content)
  {
    hide ApplyAll;
    PrefixStates(d, target, temporary, content, k);
  }

  lemma UnlinkOnTheWay<C>(d: Directory<C>, e: Directory<C>, target: Name, temporary: Name, content: C)
    requires target != temporary && OnTheWay(d, e, target, temporary, content)
    ensures OnTheWay(d, Apply(e, Unlink(temporary)), target, temporary, content)
  {
  }

  lemma AttemptPrefix<C>(d: Directory<C>, target: Name, temporary: Name, content: C, n: nat, k: nat)
    requires target != temporary && k <= |Attempt(target, temporary, content, n)|
    ensures OnTheWay(d, ApplyAll(d, Attempt(target, temporary, content, n)[..k]), target, temporary, content)
  {
    hide OnTheWay, Apply, Replacing;
    var ops := Attempt(target, temporary, content, n);
    var steps := Replacing(target, temporary, content);
    if k < |ops| {
      assert ops[..k] == steps[..k];
      PrefixOnTheWay(d, target, temporary, content, k);
    } else {
      assert ops[..k] == ops && ops[..k - 1] == steps[..k - 1];
      PrefixOnTheWay(d, target, temporary, content, k - 1);
      UnlinkOnTheWay(d, ApplyAll(d, ops[..k - 1]), target, temporary, content);
    }
  }

  function Moved<C>(d: Directory<C>, target: Name, temporary: Name, content: C): Directory<C> {
    (d - {temporary})[target := File(content, true)]
  }

  lemma PrefixStates<C>(d: Directory<C>, target: Name, temporary: Name, content: C, k: nat)
    requires target != temporary && k <= 4
    ensures ApplyAll(d, Replacing(target, temporary, content)[..k])
            == (if k == 0 then d
                else if k == 1 then d[temporary := File(content, false)]
                else if k == 2 then d[temporary := File(content, true)]
                else Moved(d, target, temporary, content))
  {
    var steps := Replacing(target, temporary, content);
    assert steps[..0] == [];
    if k > 0 {
      PrefixStates(d, target, temporary, content, k - 1);
      assert steps[..k][..k - 1] == steps[..k - 1];
    }
  }

  /** Whatever operation fails and wherever a crash hits: the target is the old file or the
      complete new content, and no other file is touched. */
  lemma ReplacingIsAtomic<C>(d: Directory<C>, target: Name, temporary: Name, content: C, n: nat, found: Directory<C>)
    requires target != temporary && (target in d ==> d[target].synced)
    requires Crash(d, Attempt(target, temporary, content, n), found)
    ensures OldOrNew(d, found, target, content) && OthersKept(d, found, target, temporary)
  {
    hide Apply, Attempt;
    var ops := Attempt(target, temporary, content, n);
    var k :| 0 <= k <= |ops| && Survives(ApplyAll(d, ops[..k]), found);
    AttemptPrefix(d, target, temporary, content, n, k);
  }

  /** Without error or crash the target holds the new content and the temporary is gone. */
  lemma ReplacingCompletes<C>(d: Directory<C>, target: Name, temporary: Name, content: C)
    requires target != temporary
    ensures ApplyAll(d, Attempt(target, temporary, content, 4)) == Moved(d, target, temporary, content)
  {
    var ops, steps := Attempt(target, temporary, content, 4), Replacing(target, temporary, content);
    assert ops[..4] == steps[..4];
    PrefixStates(d, target, temporary, content, 4);
  }

  /** An error before the replacement leaves every file but the temporary as it was. */
  lemma EarlyErrorKeeps<C>(d: Directory<C>, target: Name, temporary: Name, content: C, n: nat)
    requires target != temporary && temporary !in d && n < 3
    ensures ApplyAll(d, Attempt(target, temporary, content, n)) == d
  {
    var ops, steps := Attempt(target, temporary, content, n), Replacing(target, temporary, content);
    assert ops[..n] == steps[..n];
    PrefixStates(d, target, temporary, content, n);
  }
}
