/**
 * The import loader (src/modules.rs): a depth-first walk of the `<<` imports with a cycle
 * guard on resolution keys, a duplicate guard on canonical names, and the module items
 * emitted after those of everything they import.
 *
 * What the file system and the parser answer is a parameter: `Program` maps a resolution key
 * (a built-in name or a canonicalized path) to the module read there. A target whose key the
 * map lacks is one the source cannot name, find or read.
 */
module Loader {
  import opened Wrappers

  type Key = nat
  type Name = string

  /** One import, resolved against its importer: canonical name, key, and whether its short
      binding can be added to the importer's scope. */
  datatype Target = Target(name: Name, key: Key, binds: bool)

  datatype Source = Source(imports: seq<Target>, parses: bool, qualifies: bool)

  datatype Program = Program(files: map<Key, Source>, root: seq<Target>, rootKey: Option<Key>,
                             rootQualifies: bool)

  /** One loaded module: its items stand in `out` as one block. */
  datatype Module = Module(name: Name, key: Key, file: nat)

  datatype Error =
    | Unresolved(target: Target)
    | ImportCycle(chain: seq<Name>)
    | NameCollision(name: Name)
    | BadModule(key: Key)
    | BadBinding(target: Target)
    | BadRoot

  datatype Result<+T> = Ok(value: T) | Err(error: Error)

  const ROOT_FILE: nat := 0

  // ---------------------------------------------------------------- the import graph

  /** The imports written in the file behind a key; the entry file's are the program's own. */
  function ImportsOf(p: Program, k: Key): seq<Target> {
    if p.rootKey == Some(k) then p.root
    else if k in p.files then p.files[k].imports
    else []
  }

  /** A chain of imports that starts at the program. */
  ghost predicate Walk(p: Program, w: seq<Target>) {
    && (w != [] ==> w[0] in p.root)
    && forall i :: 1 <= i < |w| ==> Follows(p, w, i)
  }

  predicate Follows(p: Program, w: seq<Target>, i: nat)
    requires 1 <= i < |w|
  {
    w[i] in ImportsOf(p, w[i - 1].key)
  }

  ghost predicate Reachable(p: Program, t: Target) {
    exists w: seq<Target> :: Walk(p, w) && t in w
  }

  /** A walk that meets the entry file, or one key twice. */
  ghost predicate Circular(p: Program, w: seq<Target>) {
    || (exists i :: 0 <= i < |w| && p.rootKey == Some(w[i].key))
    || (exists i, j :: 0 <= i < j < |w| && w[i].key == w[j].key)
  }

  ghost predicate Acyclic(p: Program) { forall w: seq<Target> :: Walk(p, w) ==> !Circular(p, w) }

  ghost predicate Sound(p: Program, t: Target) {
    t.key in p.files && p.files[t.key].parses && p.files[t.key].qualifies && t.binds
  }

  ghost predicate OneKeyPerName(p: Program) {
    forall t, u :: Reachable(p, t) && Reachable(p, u) && t.name == u.name ==> t.key == u.key
  }

  /** What a program must be for the link to succeed, said of the graph alone. */
  ghost predicate WellFormed(p: Program) {
    && p.rootQualifies
    && (forall t :: Reachable(p, t) ==> Sound(p, t))
    && OneKeyPerName(p)
    && Acyclic(p)
  }

  /** Why a link failed: the graph itself shows it. */
  ghost predicate Justified(p: Program, e: Error) {
    match e
    case Unresolved(t) => Reachable(p, t) && t.key !in p.files
    case ImportCycle(chain) =>
      exists w: seq<Target> :: Walk(p, w) && w != [] && Circular(p, w) && EndsWithNames(chain, w)
    case NameCollision(name) =>
      exists t, u :: Reachable(p, t) && Reachable(p, u) && t.name == u.name == name && t.key != u.key
    case BadModule(k) =>
      (exists t :: Reachable(p, t) && t.key == k)
      && k in p.files && !(p.files[k].parses && p.files[k].qualifies)
    case BadBinding(t) => Reachable(p, t) && !t.binds
    case BadRoot => !p.rootQualifies
  }

  /** The chain printed for a cycle names the walk, after the entry file's own label. */
  ghost predicate EndsWithNames(chain: seq<Name>, w: seq<Target>) {
    && |w| <= |chain| <= |w| + 1
    && forall i :: 0 <= i < |w| ==> chain[|chain| - |w| + i] == w[i].name
  }

  lemma JustifiedIsIllFormed(p: Program, e: Error)
    requires Justified(p, e)
    ensures !WellFormed(p)
  {
    match e
    case ImportCycle(chain) =>
      var w :| Walk(p, w) && w != [] && Circular(p, w) && EndsWithNames(chain, w);
    case NameCollision(name) =>
      var t, u :| Reachable(p, t) && Reachable(p, u) && t.name == u.name == name && t.key != u.key;
    case BadModule(k) =>
      var t :| Reachable(p, t) && t.key == k;
    case _ =>
  }

  // ---------------------------------------------------------------- what is emitted

  ghost predicate Emitted(out: seq<Module>, upto: nat, t: Target) {
    exists j :: 0 <= j < upto && j < |out| && out[j].name == t.name && out[j].key == t.key
  }

  /** Each block stands after the blocks of all it imports, none of which is the entry file. */
  ghost predicate Ordered(p: Program, out: seq<Module>) {
    forall i, t :: 0 <= i < |out| && t in ImportsOf(p, out[i].key) ==>
      Emitted(out, i, t) && Sound(p, t)
  }

  ghost predicate NoRoot(p: Program, out: seq<Module>) {
    forall i :: 0 <= i < |out| ==> p.rootKey != Some(out[i].key)
  }

  ghost predicate DistinctNames(out: seq<Module>) {
    forall i, j :: 0 <= i < j < |out| ==> out[i].name != out[j].name
  }

  ghost predicate DistinctFiles(out: seq<Module>, next: nat) {
    && (forall i :: 0 <= i < |out| ==> ROOT_FILE < out[i].file < next)
    && forall i, j :: 0 <= i < j < |out| ==> out[i].file != out[j].file
  }

  ghost predicate AllReachable(p: Program, out: seq<Module>) {
    forall i {:trigger ReachedAs(p, out[i].name, out[i].key)} ::
      0 <= i < |out| ==> ReachedAs(p, out[i].name, out[i].key)
  }

  ghost predicate ReachedAs(p: Program, name: Name, key: Key) {
    exists t :: Reachable(p, t) && t.name == name && t.key == key
  }

  /** A successful link: exactly the reachable modules, imports first, one name and id each. */
  ghost predicate Linked(p: Program, out: seq<Module>) {
    && p.rootQualifies
    && (forall t :: t in p.root ==> Emitted(out, |out|, t) && Sound(p, t))
    && Ordered(p, out) && NoRoot(p, out) && AllReachable(p, out)
    && DistinctNames(out) && exists next: nat :: DistinctFiles(out, next)
  }

  /** The blocks emitted so far are in order, and `next` is the next file id. */
  ghost predicate Emission(p: Program, out: seq<Module>, next: nat) {
    && Ordered(p, out) && NoRoot(p, out) && AllReachable(p, out) && AllRead(p, out)
    && DistinctNames(out) && DistinctFiles(out, next) && ROOT_FILE < next
  }

  /** More blocks follow the old ones, under ids not drawn before. */
  ghost predicate Grew(out: seq<Module>, next: nat, out': seq<Module>, next': nat) {
    && out <= out' && next <= next'
    && forall i :: |out| <= i < |out'| ==> next <= out'[i].file
  }

  /** Along a walk every target is emitted, and sound. */
  lemma {:induction false} WalkIsEmitted(p: Program, out: seq<Module>, w: seq<Target>, i: nat)
    requires Linked(p, out) && Walk(p, w) && i < |w|
    ensures Emitted(out, |out|, w[i]) && Sound(p, w[i])
    decreases i
  {
    if i > 0 {
      WalkIsEmitted(p, out, w, i - 1);
      var j :| 0 <= j < |out| && out[j].name == w[i - 1].name && out[j].key == w[i - 1].key;
      assert Follows(p, w, i);
      assert w[i] in ImportsOf(p, out[j].key);
      assert Emitted(out, j, w[i]);
    }
  }

  /** Wherever a module stands, everything it leads to stands earlier. */
  lemma {:induction false} LaterStandsEarlier(p: Program, out: seq<Module>, w: seq<Target>, i: nat,
                                              j: nat, a: nat)
    returns (b: nat)
    requires Linked(p, out) && Walk(p, w) && i < j < |w| && a < |out| && out[a].key == w[i].key
    ensures b < a && out[b].key == w[j].key
    decreases j
  {
    var before := a;
    if i < j - 1 {
      before := LaterStandsEarlier(p, out, w, i, j - 1, a);
    }
    assert Follows(p, w, j);
    assert w[j] in ImportsOf(p, out[before].key);
    assert Emitted(out, before, w[j]);
    b :| 0 <= b < before && out[b].name == w[j].name && out[b].key == w[j].key;
  }

  /** A key that leads back to itself would have no earliest place in the output. */
  lemma {:induction false} NoReturn(p: Program, out: seq<Module>, w: seq<Target>, i: nat, j: nat, a: nat)
    requires Linked(p, out) && Walk(p, w) && i < j < |w| && w[i].key == w[j].key
    requires a < |out| && out[a].key == w[i].key
    ensures false
    decreases a
  {
    var b := LaterStandsEarlier(p, out, w, i, j, a);
    NoReturn(p, out, w, i, j, b);
  }

  /** What was emitted shows the whole reachable graph to be in order. */
  lemma LinkedIsWellFormed(p: Program, out: seq<Module>)
    requires Linked(p, out)
    ensures WellFormed(p)
    ensures forall t :: Reachable(p, t) ==> Emitted(out, |out|, t)
  {
    forall t | Reachable(p, t) ensures Sound(p, t) && Emitted(out, |out|, t) {
      var w :| Walk(p, w) && t in w;
      var i :| 0 <= i < |w| && w[i] == t;
      WalkIsEmitted(p, out, w, i);
    }
    forall t, u | Reachable(p, t) && Reachable(p, u) && t.name == u.name ensures t.key == u.key {
      assert Emitted(out, |out|, t) && Emitted(out, |out|, u);
    }
    forall w: seq<Target> | Walk(p, w) ensures !Circular(p, w) {
      forall i | 0 <= i < |w| ensures p.rootKey != Some(w[i].key) {
        WalkIsEmitted(p, out, w, i);
      }
      forall i, j | 0 <= i < j < |w| ensures w[i].key != w[j].key {
        WalkIsEmitted(p, out, w, i);
        var a :| 0 <= a < |out| && out[a].name == w[i].name && out[a].key == w[i].key;
        if w[i].key == w[j].key {
          NoReturn(p, out, w, i, j, a);
        }
      }
    }
  }

  /** The duplicate guard is by name: a file is loaded once exactly when it has one name. */
  lemma LoadedOnceExactly(p: Program, out: seq<Module>)
    requires Linked(p, out)
    ensures (forall i, j :: 0 <= i < j < |out| ==> out[i].key != out[j].key) <==>
            (forall t, u :: Reachable(p, t) && Reachable(p, u) && t.key == u.key ==> t.name == u.name)
  {
    LinkedIsWellFormed(p, out);
    if forall t, u :: Reachable(p, t) && Reachable(p, u) && t.key == u.key ==> t.name == u.name {
      forall i, j | 0 <= i < j < |out| ensures out[i].key != out[j].key {
        assert ReachedAs(p, out[i].name, out[i].key) && ReachedAs(p, out[j].name, out[j].key);
        var t :| Reachable(p, t) && t.name == out[i].name && t.key == out[i].key;
        var u :| Reachable(p, u) && u.name == out[j].name && u.key == out[j].key;
      }
    }
    if forall i, j :: 0 <= i < j < |out| ==> out[i].key != out[j].key {
      forall t, u | Reachable(p, t) && Reachable(p, u) && t.key == u.key ensures t.name == u.name {
        assert Emitted(out, |out|, t) && Emitted(out, |out|, u);
      }
    }
  }

  /** One file imported under two stems, as a symbolic link gives it. */
  function TwoStems(file: Key, one: Name, two: Name): Program {
    Program(map[file := Source([], true, true)], [Target(one, file, true), Target(two, file, true)], None, true)
  }

  lemma TwoStemsReach(file: Key, one: Name, two: Name, t: Target)
    ensures Reachable(TwoStems(file, one, two), t) <==> t in TwoStems(file, one, two).root
  {
    var p := TwoStems(file, one, two);
    if t in p.root {
      assert Walk(p, [t]) && t in [t];
    }
    if Reachable(p, t) {
      var w :| Walk(p, w) && t in w;
      TwoStemsWalk(file, one, two, w);
    }
  }

  lemma TwoStemsWalk(file: Key, one: Name, two: Name, w: seq<Target>)
    requires Walk(TwoStems(file, one, two), w)
    ensures |w| <= 1
  {
    assert |w| > 1 ==> Follows(TwoStems(file, one, two), w, 1);
  }

  lemma TwoStemsWellFormed(file: Key, one: Name, two: Name)
    requires one != two
    ensures WellFormed(TwoStems(file, one, two))
  {
    var p := TwoStems(file, one, two);
    forall t | Reachable(p, t) ensures Sound(p, t) && t in p.root {
      TwoStemsReach(file, one, two, t);
    }
    forall w: seq<Target> | Walk(p, w) ensures !Circular(p, w) {
      TwoStemsWalk(file, one, two, w);
    }
  }

  /** Such a program is well formed, so it links; its file is then loaded twice. */
  lemma TwoStemsLoadTwice(file: Key, one: Name, two: Name, out: seq<Module>)
    requires one != two && Linked(TwoStems(file, one, two), out)
    ensures WellFormed(TwoStems(file, one, two))
    ensures exists i, j :: 0 <= i < j < |out| && out[i].key == out[j].key
  {
    TwoStemsWellFormed(file, one, two);
    var t, u := Target(one, file, true), Target(two, file, true);
    TwoStemsReach(file, one, two, t);
    TwoStemsReach(file, one, two, u);
    LoadedOnceExactly(TwoStems(file, one, two), out);
  }

  // ---------------------------------------------------------------- the loader

  /** The modules now being loaded: a walk from the program, mirrored by stack and guard. */
  ghost predicate OnTrail(p: Program, entry: seq<Name>, stack: seq<Name>, inProgress: set<Key>,
                          trail: seq<Target>)
  {
    && Walk(p, trail)
    && |entry| <= 1
    && Labelled(entry, stack, trail)
    && (forall k :: k in inProgress <==> p.rootKey == Some(k) || HasKey(trail, k))
    && (forall i :: 0 <= i < |trail| ==> p.rootKey != Some(trail[i].key))
  }

  /** The stack printed for a cycle: the entry file's label, then the names on the trail. */
  ghost predicate Labelled(entry: seq<Name>, stack: seq<Name>, trail: seq<Target>) {
    |stack| == |entry| + |trail| && forall i :: 0 <= i < |trail| ==> stack[|entry| + i] == trail[i].name
  }

  ghost predicate HasKey(trail: seq<Target>, k: Key) {
    exists i :: 0 <= i < |trail| && trail[i].key == k
  }

  ghost predicate NamedOut(out: seq<Module>, n: Name) {
    exists i :: 0 <= i < |out| && out[i].name == n
  }

  ghost predicate NamedOn(trail: seq<Target>, n: Name) {
    exists i :: 0 <= i < |trail| && trail[i].name == n
  }

  /** A name is claimed by a block already emitted or by a module on the trail, not by both. */
  ghost predicate Claimed(loaded: map<Name, Key>, out: seq<Module>, trail: seq<Target>) {
    && (forall i :: 0 <= i < |out| ==> out[i].name in loaded && loaded[out[i].name] == out[i].key)
    && (forall i :: 0 <= i < |trail| ==> trail[i].name in loaded && loaded[trail[i].name] == trail[i].key)
    && (forall n :: n in loaded ==> NamedOut(out, n) || NamedOn(trail, n))
    && (forall i, j :: 0 <= i < |out| && 0 <= j < |trail| ==> out[i].name != trail[j].name)
    && (forall i, j :: 0 <= i < j < |trail| ==> trail[i].name != trail[j].name)
  }

  ghost predicate AllRead(p: Program, out: seq<Module>) {
    forall i :: 0 <= i < |out| ==> Readable(p, out[i].key)
  }

  predicate Readable(p: Program, k: Key) { k in p.files && p.files[k].parses && p.files[k].qualifies }

  /** The import `t` is written in the module at the end of the trail. */
  ghost predicate Written(p: Program, trail: seq<Target>, t: Target) { t in WrittenAt(p, trail) }

  function WrittenAt(p: Program, trail: seq<Target>): seq<Target> {
    if trail == [] then p.root else ImportsOf(p, trail[|trail| - 1].key)
  }

  lemma WrittenIsReachable(p: Program, trail: seq<Target>, t: Target)
    requires Walk(p, trail) && Written(p, trail, t)
    ensures Walk(p, trail + [t]) && Reachable(p, t)
  {
    var w := trail + [t];
    forall i | 1 <= i < |w| ensures Follows(p, w, i) {
      if i < |trail| {
        assert Follows(p, trail, i);
      }
    }
    assert w[|trail|] == t;
    assert t in w;
  }

  /** Importing a key that is being loaded closes a walk on itself. */
  lemma CycleIsReal(p: Program, entry: seq<Name>, stack: seq<Name>, inProgress: set<Key>,
                    trail: seq<Target>, t: Target)
    requires OnTrail(p, entry, stack, inProgress, trail) && Written(p, trail, t) && t.key in inProgress
    ensures Justified(p, ImportCycle(stack + [t.name]))
  {
    WrittenIsReachable(p, trail, t);
    var w := trail + [t];
    if p.rootKey == Some(t.key) {
      assert p.rootKey == Some(w[|trail|].key);
    } else {
      var i :| 0 <= i < |trail| && trail[i].key == t.key;
      assert w[i].key == w[|trail|].key;
    }
    assert Circular(p, w);
    assert EndsWithNames(stack + [t.name], w);
  }

  /** The loaded name stands for another key: two reachable modules share it. */
  lemma CollisionIsReal(p: Program, loaded: map<Name, Key>, out: seq<Module>, trail: seq<Target>,
                        t: Target)
    requires Walk(p, trail) && Claimed(loaded, out, trail) && AllReachable(p, out)
    requires Reachable(p, t) && t.name in loaded && loaded[t.name] != t.key
    ensures Justified(p, NameCollision(t.name))
  {
    if NamedOut(out, t.name) {
      var i :| 0 <= i < |out| && out[i].name == t.name;
      assert ReachedAs(p, out[i].name, out[i].key);
      var u :| Reachable(p, u) && u.name == out[i].name && u.key == out[i].key;
    } else {
      var i :| 0 <= i < |trail| && trail[i].name == t.name;
      assert trail[i] in trail;
      assert Reachable(p, trail[i]);
    }
  }

  /** A name loaded under its own key, and not being loaded now, has been emitted. */
  lemma LoadedIsEmitted(loaded: map<Name, Key>, out: seq<Module>, trail: seq<Target>, t: Target)
    requires Claimed(loaded, out, trail) && t.name in loaded && loaded[t.name] == t.key
    requires !HasKey(trail, t.key)
    ensures Emitted(out, |out|, t)
  {
    forall i | 0 <= i < |trail| ensures trail[i].name != t.name {
      assert trail[i].key != t.key;
    }
    assert NamedOut(out, t.name);
    var i :| 0 <= i < |out| && out[i].name == t.name;
  }

  lemma PushKeepsTrail(p: Program, entry: seq<Name>, stack: seq<Name>, inProgress: set<Key>,
                       trail: seq<Target>, t: Target)
    requires OnTrail(p, entry, stack, inProgress, trail) && Written(p, trail, t)
    requires t.key !in inProgress
    ensures OnTrail(p, entry, stack + [t.name], inProgress + {t.key}, trail + [t])
  {
    WrittenIsReachable(p, trail, t);
    var longer := trail + [t];
    assert longer[|trail|] == t && longer[..|trail|] == trail;
    forall k ensures HasKey(longer, k) <==> HasKey(trail, k) || k == t.key {
      if HasKey(trail, k) {
        var i :| 0 <= i < |trail| && trail[i].key == k;
        assert longer[i].key == k;
      }
    }
  }

  lemma PopKeepsTrail(p: Program, entry: seq<Name>, stack: seq<Name>, inProgress: set<Key>,
                      trail: seq<Target>, t: Target)
    requires OnTrail(p, entry, stack, inProgress, trail + [t]) && !HasKey(trail, t.key)
    ensures OnTrail(p, entry, stack[..|stack| - 1], inProgress - {t.key}, trail)
  {
    var longer := trail + [t];
    assert longer[|trail|] == t && longer[..|trail|] == trail;
    assert forall i :: 0 <= i < |trail| ==> longer[i] == trail[i];
    forall i | 1 <= i < |trail| ensures Follows(p, trail, i) {
      assert Follows(p, longer, i);
    }
    forall k ensures HasKey(longer, k) <==> HasKey(trail, k) || k == t.key {
      if HasKey(trail, k) {
        var i :| 0 <= i < |trail| && trail[i].key == k;
        assert longer[i].key == k;
      }
    }
  }

  lemma PushKeepsClaims(loaded: map<Name, Key>, out: seq<Module>, trail: seq<Target>, t: Target)
    requires Claimed(loaded, out, trail) && t.name !in loaded
    ensures Claimed(loaded[t.name := t.key], out, trail + [t])
  {
    var longer := trail + [t];
    forall n | n in loaded[t.name := t.key] ensures NamedOut(out, n) || NamedOn(longer, n) {
      if n == t.name {
        assert longer[|trail|].name == n;
      } else if NamedOn(trail, n) {
        var i :| 0 <= i < |trail| && trail[i].name == n;
        assert longer[i].name == n;
      }
    }
  }

  lemma PopKeepsClaims(loaded: map<Name, Key>, out: seq<Module>, trail: seq<Target>, t: Target, m: Module)
    requires Claimed(loaded, out, trail + [t]) && m.name == t.name && m.key == t.key
    ensures Claimed(loaded, out + [m], trail)
    ensures DistinctNames(out) ==> DistinctNames(out + [m])
  {
    var longer, more := trail + [t], out + [m];
    assert longer[|trail|] == t && more[|out|] == m;
    assert forall i :: 0 <= i < |trail| ==> longer[i] == trail[i];
    forall n | n in loaded ensures NamedOut(more, n) || NamedOn(trail, n) {
      if NamedOut(out, n) {
        var i :| 0 <= i < |out| && out[i].name == n;
        assert more[i].name == n;
      } else {
        var i :| 0 <= i < |longer| && longer[i].name == n;
      }
    }
  }

  lemma EmittedGrows(out: seq<Module>, more: seq<Module>, t: Target)
    requires Emitted(out, |out|, t) && out <= more
    ensures Emitted(more, |more|, t)
  {
    var j :| 0 <= j < |out| && out[j].name == t.name && out[j].key == t.key;
    assert more[j] == out[j];
  }

  /** The first `n` imports are emitted and without defect. */
  ghost predicate Handled(p: Program, out: seq<Module>, imports: seq<Target>, n: nat)
    requires n <= |imports|
  {
    forall j :: 0 <= j < n ==> Emitted(out, |out|, imports[j]) && Sound(p, imports[j])
  }

  lemma HandledNext(p: Program, out: seq<Module>, more: seq<Module>, imports: seq<Target>, n: nat)
    requires n < |imports| && Handled(p, out, imports, n) && out <= more
    requires Emitted(more, |more|, imports[n]) && Sound(p, imports[n])
    ensures Handled(p, more, imports, n + 1)
  {
    forall j | 0 <= j < n ensures Emitted(more, |more|, imports[j]) {
      EmittedGrows(out, more, imports[j]);
    }
  }

  lemma GrewOn(a: seq<Module>, i: nat, b: seq<Module>, j: nat, c: seq<Module>, k: nat)
    requires Grew(a, i, b, j) && Grew(b, j, c, k)
    ensures Grew(a, i, c, k)
  {
    forall n | |a| <= n < |c| ensures i <= c[n].file {
      if n < |b| {
        assert b[n] == c[n];
      }
    }
  }

  /** A block goes out once everything its module imports has gone out. */
  lemma EmitKeepsOrder(p: Program, out: seq<Module>, m: Module)
    requires Ordered(p, out)
    requires Handled(p, out, ImportsOf(p, m.key), |ImportsOf(p, m.key)|)
    ensures Ordered(p, out + [m])
  {
    var more := out + [m];
    forall i, t | 0 <= i < |more| && t in ImportsOf(p, more[i].key)
      ensures Emitted(more, i, t) && Sound(p, t)
    {
      if i < |out| {
        assert more[i] == out[i];
        assert Emitted(out, i, t);
        var j :| 0 <= j < i && out[j].name == t.name && out[j].key == t.key;
        assert more[j] == out[j];
      } else {
        var j :| 0 <= j < |out| && out[j].name == t.name && out[j].key == t.key;
        assert more[j] == out[j];
      }
    }
  }

  lemma EmitKeeps(p: Program, out: seq<Module>, next: nat, m: Module)
    requires Emission(p, out, next)
    requires Handled(p, out, ImportsOf(p, m.key), |ImportsOf(p, m.key)|)
    requires p.rootKey != Some(m.key) && ReachedAs(p, m.name, m.key) && Readable(p, m.key)
    requires DistinctNames(out + [m])
    requires ROOT_FILE < m.file < next && forall i :: 0 <= i < |out| ==> out[i].file != m.file
    ensures Emission(p, out + [m], next)
  {
    EmitKeepsOrder(p, out, m);
  }

  // ---------------------------------------------------------------- the loader's steps

  datatype State = State(loaded: map<Name, Key>, inProgress: set<Key>, stack: seq<Name>,
                         out: seq<Module>, nextFile: nat)

  datatype Outcome = Done(state: State) | Failed(error: Error)

  /** Claim the name, enter the cycle guard, draw a file id. */
  function Begun(s: State, t: Target): State {
    State(s.loaded[t.name := t.key], s.inProgress + {t.key}, s.stack + [t.name], s.out, s.nextFile + 1)
  }

  /** Emit the module's block and leave the cycle guard. */
  function Finished(s: State, t: Target, file: nat): State {
    State(s.loaded, s.inProgress - {t.key},
          if s.stack == [] then [] else s.stack[..|s.stack| - 1],
          s.out + [Module(t.name, t.key, file)], s.nextFile)
  }

  function Resolve(p: Program, s: State, t: Target): (o: Outcome)
    ensures o.Done? ==> o.state.inProgress == s.inProgress
    decreases |p.files.Keys - s.inProgress|, 1, 0
  {
    if t.key !in p.files then Failed(Unresolved(t))
    else if t.key in s.inProgress then Failed(ImportCycle(s.stack + [t.name]))
    else if t.name in s.loaded then
      if s.loaded[t.name] == t.key then Done(s) else Failed(NameCollision(t.name))
    else Load(p, s, t)
  }

  function Load(p: Program, s: State, t: Target): (o: Outcome)
    requires t.key in p.files && t.key !in s.inProgress
    ensures o.Done? ==> o.state.inProgress == s.inProgress
    decreases |p.files.Keys - s.inProgress|, 0, 0
  {
    assert p.files.Keys - (s.inProgress + {t.key}) == p.files.Keys - s.inProgress - {t.key};
    if !p.files[t.key].parses then Failed(BadModule(t.key))
    else
      var imported := ResolveAll(p, Begun(s, t), p.files[t.key].imports);
      if imported.Failed? then imported
      else if !p.files[t.key].qualifies then Failed(BadModule(t.key))
      else Done(Finished(imported.state, t, s.nextFile))
  }

  function ResolveAll(p: Program, s: State, imports: seq<Target>): (o: Outcome)
    ensures o.Done? ==> o.state.inProgress == s.inProgress
    decreases |p.files.Keys - s.inProgress|, 2, |imports|
  {
    if imports == [] then Done(s)
    else
      var one := Resolve(p, s, imports[0]);
      if one.Failed? then one
      else if !imports[0].binds then Failed(BadBinding(imports[0]))
      else ResolveAll(p, one.state, imports[1..])
  }

  /** What holds between any two steps, `trail` being the imports now followed. */
  ghost predicate Good(p: Program, entry: seq<Name>, s: State, trail: seq<Target>) {
    && OnTrail(p, entry, s.stack, s.inProgress, trail)
    && Claimed(s.loaded, s.out, trail)
    && Emission(p, s.out, s.nextFile)
  }

  /** A resolved import: the loader is as before but for more blocks, this one among them. */
  ghost predicate Resolved(p: Program, entry: seq<Name>, s: State, trail: seq<Target>, v: State) {
    Good(p, entry, v, trail) && v.stack == s.stack && Grew(s.out, s.nextFile, v.out, v.nextFile)
  }

  lemma ResolvedOn(p: Program, entry: seq<Name>, s: State, trail: seq<Target>, v: State, u: State)
    requires Resolved(p, entry, s, trail, v) && Resolved(p, entry, v, trail, u)
    ensures Resolved(p, entry, s, trail, u)
  {
    GrewOn(s.out, s.nextFile, v.out, v.nextFile, u.out, u.nextFile);
  }

  lemma BeginKeeps(p: Program, entry: seq<Name>, s: State, trail: seq<Target>, t: Target)
    requires Good(p, entry, s, trail) && Written(p, trail, t)
    requires t.key !in s.inProgress && t.name !in s.loaded
    ensures Good(p, entry, Begun(s, t), trail + [t])
  {
    PushKeepsTrail(p, entry, s.stack, s.inProgress, trail, t);
    PushKeepsClaims(s.loaded, s.out, trail, t);
  }

  lemma FinishKeeps(p: Program, entry: seq<Name>, s: State, trail: seq<Target>, t: Target, file: nat)
    requires Good(p, entry, s, trail + [t]) && Readable(p, t.key) && Reachable(p, t)
    requires p.rootKey != Some(t.key) && !HasKey(trail, t.key)
    requires Handled(p, s.out, ImportsOf(p, t.key), |ImportsOf(p, t.key)|)
    requires ROOT_FILE < file < s.nextFile && forall i :: 0 <= i < |s.out| ==> s.out[i].file != file
    ensures Good(p, entry, Finished(s, t, file), trail)
    ensures Emitted(Finished(s, t, file).out, |s.out| + 1, t)
  {
    var block := Module(t.name, t.key, file);
    PopKeepsTrail(p, entry, s.stack, s.inProgress, trail, t);
    PopKeepsClaims(s.loaded, s.out, trail, t, block);
    assert ReachedAs(p, t.name, t.key);
    EmitKeeps(p, s.out, s.nextFile, block);
    assert (s.out + [block])[|s.out|] == block;
  }

  lemma {:induction false} ResolveKeeps(p: Program, entry: seq<Name>, s: State, trail: seq<Target>, t: Target)
    requires Good(p, entry, s, trail) && Written(p, trail, t)
    ensures var o := Resolve(p, s, t);
            if o.Done? then Resolved(p, entry, s, trail, o.state) && Emitted(o.state.out, |o.state.out|, t)
                            && Readable(p, t.key)
            else Justified(p, o.error)
    decreases |p.files.Keys - s.inProgress|, 1, 0
  {
    WrittenIsReachable(p, trail, t);
    if t.key in p.files {
      if t.key in s.inProgress {
        CycleIsReal(p, entry, s.stack, s.inProgress, trail, t);
      } else if t.name !in s.loaded {
        LoadKeeps(p, entry, s, trail, t);
      } else if s.loaded[t.name] == t.key {
        LoadedIsEmitted(s.loaded, s.out, trail, t);
      } else {
        CollisionIsReal(p, s.loaded, s.out, trail, t);
      }
    }
  }

  lemma {:induction false} LoadKeeps(p: Program, entry: seq<Name>, s: State, trail: seq<Target>, t: Target)
    requires Good(p, entry, s, trail) && Written(p, trail, t)
    requires t.key in p.files && t.key !in s.inProgress && t.name !in s.loaded
    ensures var o := Load(p, s, t);
            if o.Done? then Resolved(p, entry, s, trail, o.state) && Emitted(o.state.out, |o.state.out|, t)
                            && Readable(p, t.key)
            else Justified(p, o.error)
    decreases |p.files.Keys - s.inProgress|, 0, 0
  {
    WrittenIsReachable(p, trail, t);
    BeginKeeps(p, entry, s, trail, t);
    assert p.files.Keys - (s.inProgress + {t.key}) == p.files.Keys - s.inProgress - {t.key};
    assert WrittenAt(p, trail + [t]) == p.files[t.key].imports;
    ResolveAllKeeps(p, entry, Begun(s, t), trail + [t], 0);
    assert p.files[t.key].imports[0..] == p.files[t.key].imports;
    var o := ResolveAll(p, Begun(s, t), p.files[t.key].imports);
    if p.files[t.key].parses && o.Done? && p.files[t.key].qualifies {
      FinishLoad(p, entry, s, trail, t, o.state);
    }
  }

  lemma FinishLoad(p: Program, entry: seq<Name>, s: State, trail: seq<Target>, t: Target, v: State)
    requires Good(p, entry, s, trail) && Reachable(p, t) && Readable(p, t.key)
    requires t.key !in s.inProgress
    requires Resolved(p, entry, Begun(s, t), trail + [t], v)
    requires Handled(p, v.out, ImportsOf(p, t.key), |ImportsOf(p, t.key)|)
    ensures var o := Finished(v, t, s.nextFile);
            Resolved(p, entry, s, trail, o) && Emitted(o.out, |o.out|, t)
  {
    forall i | 0 <= i < |v.out| ensures v.out[i].file != s.nextFile {
      if i < |s.out| {
        assert v.out[i] == s.out[i];
      }
    }
    FinishKeeps(p, entry, v, trail, t, s.nextFile);
    assert v.stack[..|v.stack| - 1] == s.stack;
  }

  lemma {:induction false} ResolveAllKeeps(p: Program, entry: seq<Name>, s: State, trail: seq<Target>, n: nat)
    requires Good(p, entry, s, trail) && n <= |WrittenAt(p, trail)|
    requires Handled(p, s.out, WrittenAt(p, trail), n)
    ensures var imports := WrittenAt(p, trail);
            var o := ResolveAll(p, s, imports[n..]);
            if o.Done? then Resolved(p, entry, s, trail, o.state) && Handled(p, o.state.out, imports, |imports|)
            else Justified(p, o.error)
    decreases |p.files.Keys - s.inProgress|, 2, |WrittenAt(p, trail)| - n
  {
    var imports := WrittenAt(p, trail);
    if n < |imports| {
      WrittenIsReachable(p, trail, imports[n]);
      ResolveKeeps(p, entry, s, trail, imports[n]);
      assert imports[n..][1..] == imports[n + 1..];
      var one := Resolve(p, s, imports[n]);
      if one.Done? && imports[n].binds {
        HandledNext(p, s.out, one.state.out, imports, n);
        ResolveAllKeeps(p, entry, one.state, trail, n + 1);
        var o := ResolveAll(p, one.state, imports[n + 1..]);
        if o.Done? {
          ResolvedOn(p, entry, s, trail, one.state, o.state);
        }
      }
    }
  }

  function Initial(p: Program, rootLabel: Name): State {
    if p.rootKey.Some? then State(map[], {p.rootKey.value}, [rootLabel], [], ROOT_FILE + 1)
    else State(map[], {}, [], [], ROOT_FILE + 1)
  }

  /** Over a whole run: success emits a complete and ordered program, failure names a defect. */
  lemma LinkKeeps(p: Program, rootLabel: Name)
    ensures var o := ResolveAll(p, Initial(p, rootLabel), p.root);
            if o.Failed? then Justified(p, o.error)
            else p.rootQualifies ==> Linked(p, o.state.out)
  {
    var entry := if p.rootKey.Some? then [rootLabel] else [];
    assert Good(p, entry, Initial(p, rootLabel), []);
    ResolveAllKeeps(p, entry, Initial(p, rootLabel), [], 0);
    assert p.root[0..] == p.root;
    var o := ResolveAll(p, Initial(p, rootLabel), p.root);
    if o.Done? {
      assert DistinctFiles(o.state.out, o.state.nextFile);
    }
  }

  // ---------------------------------------------------------------- the loader

  class ImportLoader {
    const p: Program

    var loaded: map<Name, Key>
    var inProgress: set<Key>
    var stack: seq<Name>
    var out: seq<Module>
    var nextFile: nat

    function Now(): State
      reads this
    {
      State(loaded, inProgress, stack, out, nextFile)
    }

    constructor (program: Program, rootLabel: Name)
      ensures p == program && Now() == Initial(program, rootLabel)
    {
      p := program;
      loaded := map[];
      inProgress := if program.rootKey.Some? then {program.rootKey.value} else {};
      stack := if program.rootKey.Some? then [rootLabel] else [];
      out := [];
      nextFile := ROOT_FILE + 1;
    }

    /** Load one module and, first, everything it imports. */
    method ResolveOne(t: Target) returns (r: Result<Name>)
      modifies this
      ensures r.Ok? ==> r.value == t.name && Resolve(p, old(Now()), t) == Done(Now())
      ensures r.Err? ==> Resolve(p, old(Now()), t) == Failed(r.error)
      decreases |p.files.Keys - inProgress|, 1
    {
      if t.key !in p.files {
        return Err(Unresolved(t));
      }
      if t.key in inProgress {
        return Err(ImportCycle(stack + [t.name]));
      }
      if t.name in loaded {
        if loaded[t.name] == t.key {
          return Ok(t.name);
        }
        return Err(NameCollision(t.name));
      }
      assert p.files.Keys - (inProgress + {t.key}) == p.files.Keys - inProgress - {t.key};
      loaded := loaded[t.name := t.key];
      inProgress := inProgress + {t.key};
      stack := stack + [t.name];
      var file := nextFile;
      nextFile := nextFile + 1;
      var source := p.files[t.key];
      if !source.parses {
        return Err(BadModule(t.key));
      }
      var imported := ResolveImports(source.imports);
      if imported.Err? {
        return Err(imported.error);
      }
      if !source.qualifies {
        return Err(BadModule(t.key));
      }
      out := out + [Module(t.name, t.key, file)];
      inProgress := inProgress - {t.key};
      stack := if stack == [] then [] else stack[..|stack| - 1];
      return Ok(t.name);
    }

    /** Resolve and bind every import of one module, in the order written. */
    method ResolveImports(imports: seq<Target>) returns (r: Result<nat>)
      modifies this
      ensures r.Ok? ==> ResolveAll(p, old(Now()), imports) == Done(Now())
      ensures r.Err? ==> ResolveAll(p, old(Now()), imports) == Failed(r.error)
      decreases |p.files.Keys - inProgress|, 2
    {
      var i := 0;
      assert imports[0..] == imports;
      while i < |imports|
        invariant 0 <= i <= |imports|
        invariant inProgress == old(inProgress)
        invariant ResolveAll(p, old(Now()), imports) == ResolveAll(p, Now(), imports[i..])
      {
        assert imports[i..][1..] == imports[i + 1..];
        var resolved := ResolveOne(imports[i]);
        if resolved.Err? {
          return Err(resolved.error);
        }
        if !imports[i].binds {
          return Err(BadBinding(imports[i]));
        }
        i := i + 1;
      }
      return Ok(|imports|);
    }
  }

  /**
   * Link a program. It succeeds exactly on the well-formed import graphs; then the blocks are
   * exactly the reachable modules, imports first, each with its own name and file id. When it
   * fails, the graph holds the defect the error names.
   */
  method Link(p: Program, rootLabel: Name) returns (r: Result<seq<Module>>)
    ensures r.Ok? <==> WellFormed(p)
    ensures r.Ok? ==> Linked(p, r.value)
    ensures r.Err? ==> Justified(p, r.error)
  {
    LinkKeeps(p, rootLabel);
    var loader := new ImportLoader(p, rootLabel);
    var imported := loader.ResolveImports(p.root);
    if imported.Err? {
      JustifiedIsIllFormed(p, imported.error);
      return Err(imported.error);
    }
    if !p.rootQualifies {
      return Err(BadRoot);
    }
    LinkedIsWellFormed(p, loader.out);
    return Ok(loader.out);
  }
}
