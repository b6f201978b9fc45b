/**
 * Qualified names (src/ast/qualify.rs): an imported module's items are renamed into one flat
 * namespace and every reference is rewritten to match.
 *
 * Two resolutions of the same tree are compared. `Scoped` reads the original module: lexical
 * scopes, the module's own top level, its imports. `Flat` reads the rewritten module and
 * knows no modules at all: a name is a local or a key of one flat table. A declaration's
 * `site` tells declarations of one name apart.
 *
 * Type annotations and block-local types are not part of this model.
 */
module Qualify {
  import opened Wrappers

  type Name = string

  datatype Result<+T> = Ok(value: T) | Err(error: Error)

  datatype Error =
    | NameCollision(alias: Name)
    | AmbiguousPrefix(prefix: Name)
    | NotImported(prefix: Name)
    | NotExported(moduleName: Name, member: Name)
    | NameClaimed(name: Name)
    | ModuleIsNotAValue(name: Name)

  // ---------------------------------------------------------------- dotted names

  const DOT: char := '.'

  predicate Dotted(s: Name) { DOT in s }

  datatype Split = Split(prefix: Name, member: Name)

  /** Cut at the last dot. */
  function CutLast(s: Name): (cut: Split)
    requires Dotted(s)
    ensures s == cut.prefix + [DOT] + cut.member && !Dotted(cut.member)
  {
    if s[|s| - 1] == DOT then Split(s[..|s| - 1], [])
    else
      var cut := CutLast(s[..|s| - 1]);
      Split(cut.prefix, cut.member + [s[|s| - 1]])
  }

  function Qualified(moduleName: Name, name: Name): Name { moduleName + [DOT] + name }

  /** The name's module and member can be read back from its spelling. */
  lemma {:induction false} CutQualified(moduleName: Name, name: Name)
    requires !Dotted(name)
    ensures Dotted(Qualified(moduleName, name))
    ensures CutLast(Qualified(moduleName, name)) == Split(moduleName, name)
    decreases |name|
  {
    var q := Qualified(moduleName, name);
    assert q[|moduleName|] == DOT;
    if name == [] {
      assert q[..|q| - 1] == moduleName;
    } else {
      var shorter := name[..|name| - 1];
      assert q[..|q| - 1] == Qualified(moduleName, shorter);
      CutQualified(moduleName, shorter);
    }
  }

  /** Distinct (module, name) pairs never share a qualified name, nor do they meet a bare one. */
  lemma QualifiedIsInjective(one: Name, name: Name, other: Name, member: Name)
    requires !Dotted(name) && !Dotted(member)
    ensures Qualified(one, name) == Qualified(other, member) <==> one == other && name == member
    ensures Qualified(one, name) != member
  {
    CutQualified(one, name);
    CutQualified(other, member);
  }

  function LastSegment(s: Name): Name { if Dotted(s) then CutLast(s).member else s }

  function FirstSegment(s: Name): (first: Name)
    ensures !Dotted(first)
  {
    if s == [] || s[0] == DOT then [] else [s[0]] + FirstSegment(s[1..])
  }

  // ---------------------------------------------------------------- what the imports bind

  datatype Scope = Scope(aliases: map<Name, seq<Name>>, exports: map<Name, set<Name>>,
                         claimed: map<Name, Name>)

  function Claim(claimed: map<Name, Name>, name: Name, spelling: Name): map<Name, Name> {
    if name in claimed then claimed else claimed[name := spelling]
  }

  function Sharing(aliases: map<Name, seq<Name>>, alias: Name): seq<Name> {
    if alias in aliases then aliases[alias] else []
  }

  function MoreAliases(aliases: map<Name, seq<Name>>, canonical: Name): map<Name, seq<Name>> {
    var alias := LastSegment(canonical);
    var there := Sharing(aliases, alias);
    if canonical in there then aliases else aliases[alias := there + [canonical]]
  }

  function MoreClaims(claimed: map<Name, Name>, canonical: Name): map<Name, Name> {
    var more := Claim(claimed, LastSegment(canonical), canonical);
    if FirstSegment(canonical) != canonical then Claim(more, FirstSegment(canonical), canonical) else more
  }

  /** Two modules share a short name and one of them has no longer name to fall back on. */
  predicate Collides(aliases: map<Name, seq<Name>>, canonical: Name) {
    var alias := LastSegment(canonical);
    alias in aliases && canonical !in aliases[alias] && (canonical == alias || alias in aliases[alias])
  }

  /** One `<<` line, under its last segment. */
  function Imported(s: Scope, canonical: Name, exports: set<Name>): Result<Scope> {
    if Collides(s.aliases, canonical) then Err(NameCollision(LastSegment(canonical)))
    else Ok(Scope(MoreAliases(s.aliases, canonical),
                  if canonical in s.exports then s.exports else s.exports[canonical := exports],
                  MoreClaims(s.claimed, canonical)))
  }

  /** The scope of one file, filled in place import by import. */
  class ModuleScope {
    var aliases: map<Name, seq<Name>>
    var exports: map<Name, set<Name>>
    var claimed: map<Name, Name>

    function Now(): Scope
      reads this
    {
      Scope(aliases, exports, claimed)
    }

    /** What the imports added so far build. */
    ghost predicate Valid()
      reads this
    {
      Consistent(Now())
    }

    constructor ()
      ensures Valid() && Now() == Scope(map[], map[], map[])
    {
      aliases, exports, claimed := map[], map[], map[];
    }

    method AddImport(canonical: Name, exported: set<Name>) returns (r: Result<nat>)
      requires Valid()
      modifies this
      ensures Valid()
      ensures r.Ok? ==> Imported(old(Now()), canonical, exported) == Ok(Now())
      ensures r.Err? ==> Imported(old(Now()), canonical, exported) == Err(r.error) && Now() == old(Now())
    {
      ghost var before := Now();
      var alias := LastSegment(canonical);
      if alias in aliases {
        var existing := aliases[alias];
        if canonical !in existing {
          if canonical == alias || alias in existing {
            return Err(NameCollision(alias));
          }
          aliases := aliases[alias := existing + [canonical]];
        }
      } else {
        aliases := aliases[alias := [canonical]];
        assert [] + [canonical] == [canonical];
      }
      if canonical !in exports {
        exports := exports[canonical := exported];
      }
      if alias !in claimed {
        claimed := claimed[alias := canonical];
      }
      var first := FirstSegment(canonical);
      if first != canonical && first !in claimed {
        claimed := claimed[first := canonical];
      }
      assert !Collides(before.aliases, canonical) && Imported(before, canonical, exported) == Ok(Now());
      ImportKeeps(before, canonical, exported);
      return Ok(|claimed|);
    }
  }

  datatype Import = Import(canonical: Name, exports: set<Name>)

  /** The scope a file's imports build, in the order written, or the first collision. */
  function ScopeOf(imports: seq<Import>): Result<Scope> {
    if imports == [] then Ok(Scope(map[], map[], map[]))
    else
      var before := ScopeOf(imports[..|imports| - 1]);
      var last := imports[|imports| - 1];
      if before.Err? then before else Imported(before.value, last.canonical, last.exports)
  }

  /** Every scope that a file's imports build is consistent. */
  lemma {:induction false} ImportsAreConsistent(imports: seq<Import>)
    requires ScopeOf(imports).Ok?
    ensures Consistent(ScopeOf(imports).value)
    decreases |imports|
  {
    if imports != [] {
      var before, last := ScopeOf(imports[..|imports| - 1]), imports[|imports| - 1];
      ImportsAreConsistent(imports[..|imports| - 1]);
      if Collides(before.value.aliases, last.canonical) {
        assert false;
      }
      ImportKeeps(before.value, last.canonical, last.exports);
    }
  }

  /** Which module a prefix means. */
  function ResolvePrefix(s: Scope, prefix: Name): Result<Name> {
    if prefix in s.aliases then
      if |s.aliases[prefix]| == 1 then Ok(s.aliases[prefix][0]) else Err(AmbiguousPrefix(prefix))
    else if prefix in s.exports then Ok(prefix)
    else Err(NotImported(prefix))
  }

  function ResolveDotted(s: Scope, name: Name): Result<Name>
    requires Dotted(name)
  {
    var cut := CutLast(name);
    var found := ResolvePrefix(s, cut.prefix);
    if found.Err? then Err(found.error)
    else if found.value !in s.exports || cut.member !in s.exports[found.value]
    then Err(NotExported(found.value, cut.member))
    else Ok(Qualified(found.value, cut.member))
  }

  /** An alias lists distinct modules with that last segment; a file module stands alone. */
  ghost predicate Listed(alias: Name, modules: seq<Name>) {
    && modules != [] && !Dotted(alias)
    && (forall i :: 0 <= i < |modules| ==> LastSegment(modules[i]) == alias)
    && (forall i, j :: 0 <= i < j < |modules| ==> modules[i] != modules[j])
    && (alias in modules ==> modules == [alias])
  }

  ghost predicate AllListed(aliases: map<Name, seq<Name>>) {
    forall a :: a in aliases ==> Listed(a, aliases[a])
  }

  /** The listed modules are those with known exports. */
  ghost predicate SameModules(aliases: map<Name, seq<Name>>, exports: map<Name, set<Name>>) {
    && (forall a, c :: a in aliases && c in aliases[a] ==> c in exports)
    && (forall c :: c in exports ==> Home(aliases, c))
  }

  ghost predicate Home(aliases: map<Name, seq<Name>>, c: Name) {
    LastSegment(c) in aliases && c in aliases[LastSegment(c)]
  }

  ghost predicate Consistent(s: Scope) {
    AllListed(s.aliases) && SameModules(s.aliases, s.exports) && s.aliases.Keys <= s.claimed.Keys
  }

  lemma ListGrows(alias: Name, modules: seq<Name>, canonical: Name)
    requires modules == [] || Listed(alias, modules)
    requires alias == LastSegment(canonical) && canonical !in modules
    requires modules == [] || (canonical != alias && alias !in modules)
    ensures Listed(alias, modules + [canonical])
  {
    assert !Dotted(alias);
    if alias in modules + [canonical] {
      assert modules == [];
    }
  }

  lemma ListedKept(aliases: map<Name, seq<Name>>, canonical: Name)
    requires AllListed(aliases) && !Collides(aliases, canonical)
    ensures AllListed(MoreAliases(aliases, canonical))
  {
    var alias := LastSegment(canonical);
    if canonical !in Sharing(aliases, alias) {
      ListGrows(alias, Sharing(aliases, alias), canonical);
    }
  }

  lemma NewModule(aliases: map<Name, seq<Name>>, exports: map<Name, set<Name>>, canonical: Name,
                  exported: set<Name>)
    requires SameModules(aliases, exports)
    ensures SameModules(MoreAliases(aliases, canonical),
                        if canonical in exports then exports else exports[canonical := exported])
  {
    var more := MoreAliases(aliases, canonical);
    forall c | c == canonical || c in exports ensures Home(more, c) {
      if c != canonical {
        assert Home(aliases, c);
      }
    }
    forall a, c | a in more && c in more[a] ensures c == canonical || c in exports {
      assert c == canonical || (a in aliases && c in aliases[a]);
    }
  }

  lemma ClaimsKept(aliases: map<Name, seq<Name>>, claimed: map<Name, Name>, canonical: Name)
    requires aliases.Keys <= claimed.Keys
    ensures MoreAliases(aliases, canonical).Keys <= MoreClaims(claimed, canonical).Keys
  {
  }

  lemma ImportKeeps(s: Scope, canonical: Name, exports: set<Name>)
    requires Consistent(s) && !Collides(s.aliases, canonical)
    ensures Consistent(Imported(s, canonical, exports).value)
  {
    ListedKept(s.aliases, canonical);
    NewModule(s.aliases, s.exports, canonical, exports);
    ClaimsKept(s.aliases, s.claimed, canonical);
  }

  /** An imported module's export is always reached by the full path. */
  lemma FullPathAlwaysWorks(s: Scope, canonical: Name, member: Name)
    requires Consistent(s) && canonical in s.exports && member in s.exports[canonical]
    requires !Dotted(member)
    ensures ResolveDotted(s, Qualified(canonical, member)) == Ok(Qualified(canonical, member))
  {
    CutQualified(canonical, member);
    assert Home(s.aliases, canonical);
    assert canonical in s.aliases ==> Listed(canonical, s.aliases[canonical]);
  }

  /**
   * What a dotted reference can mean: an exported member of an imported module, written by
   * the module's full name or by a short name that no other imported module shares.
   */
  lemma DottedMeansExport(s: Scope, name: Name, q: Name)
    requires Consistent(s) && Dotted(name)
    ensures ResolveDotted(s, name) == Ok(q) <==>
            exists c :: c in s.exports && CutLast(name).member in s.exports[c]
                        && q == Qualified(c, CutLast(name).member)
                        && (CutLast(name).prefix == c
                            || (CutLast(name).prefix == LastSegment(c) && s.aliases[LastSegment(c)] == [c]))
  {
    var cut := CutLast(name);
    if ResolveDotted(s, name) == Ok(q) {
      var c := ResolvePrefix(s, cut.prefix).value;
      assert c in s.exports;
      if cut.prefix in s.aliases {
        assert s.aliases[cut.prefix] == [s.aliases[cut.prefix][0]];
        assert Listed(cut.prefix, s.aliases[cut.prefix]);
      }
    }
    forall c | && c in s.exports && cut.member in s.exports[c] && q == Qualified(c, cut.member)
               && (cut.prefix == c || (cut.prefix == LastSegment(c) && s.aliases[LastSegment(c)] == [c]))
      ensures ResolveDotted(s, name) == Ok(q)
    {
      if cut.prefix == c {
        FullPathAlwaysWorks(s, c, cut.member);
      }
    }
  }

  // ---------------------------------------------------------------- a file's imports

  /** The first import of its module; a later one of the same module adds nothing. */
  predicate First(imports: seq<Import>, i: nat)
    requires i < |imports|
  {
    forall j :: 0 <= j < i ==> imports[j].canonical != imports[i].canonical
  }

  predicate Imports(imports: seq<Import>, canonical: Name) {
    exists i :: 0 <= i < |imports| && imports[i].canonical == canonical
  }

  /** What one accepted import adds. */
  lemma ImportAdds(s: Scope, canonical: Name, exports: set<Name>)
    requires !Collides(s.aliases, canonical)
    ensures var v := Imported(s, canonical, exports).value;
            && v.exports.Keys == s.exports.Keys + {canonical}
            && (forall c :: c in s.exports ==> v.exports[c] == s.exports[c])
            && (canonical !in s.exports ==> v.exports[canonical] == exports)
  {
  }

  lemma ImportClaims(s: Scope, canonical: Name, exports: set<Name>, name: Name)
    requires !Collides(s.aliases, canonical)
    ensures name in Imported(s, canonical, exports).value.claimed <==> name in s.claimed || Claims(canonical, name)
  {
  }

  lemma ScopeStep(imports: seq<Import>)
    requires imports != [] && ScopeOf(imports).Ok?
    ensures var before, last := ScopeOf(imports[..|imports| - 1]), imports[|imports| - 1];
            && before.Ok? && !Collides(before.value.aliases, last.canonical)
            && ScopeOf(imports) == Imported(before.value, last.canonical, last.exports)
  {
  }

  lemma ImportsStep(imports: seq<Import>, c: Name)
    requires imports != []
    ensures var front, last := imports[..|imports| - 1], imports[|imports| - 1];
            Imports(imports, c) <==> Imports(front, c) || c == last.canonical
  {
    var front := imports[..|imports| - 1];
    if Imports(front, c) {
      var i :| 0 <= i < |front| && front[i].canonical == c;
      assert imports[i].canonical == c;
    }
  }

  lemma {:induction false} KnownExactly(imports: seq<Import>, c: Name)
    requires ScopeOf(imports).Ok?
    ensures c in ScopeOf(imports).value.exports <==> Imports(imports, c)
    decreases |imports|
  {
    if imports != [] {
      var front, last := imports[..|imports| - 1], imports[|imports| - 1];
      ScopeStep(imports);
      ImportAdds(ScopeOf(front).value, last.canonical, last.exports);
      ImportsStep(imports, c);
      KnownExactly(front, c);
    }
  }

  predicate Gives(s: Scope, one: Import) {
    one.canonical in s.exports && s.exports[one.canonical] == one.exports
  }

  lemma GivesStep(s: Scope, last: Import, one: Import)
    requires !Collides(s.aliases, last.canonical)
    requires Gives(s, one) || (one == last && one.canonical !in s.exports)
    ensures Gives(Imported(s, last.canonical, last.exports).value, one)
  {
  }

  lemma {:induction false} FirstGives(imports: seq<Import>, i: nat)
    requires ScopeOf(imports).Ok? && i < |imports| && First(imports, i)
    ensures Gives(ScopeOf(imports).value, imports[i])
    decreases |imports|
  {
    var front, last := imports[..|imports| - 1], imports[|imports| - 1];
    ScopeStep(imports);
    if i < |front| {
      FirstOfFront(imports, i);
      FirstGives(front, i);
    } else {
      NewInFront(imports);
    }
    GivesStep(ScopeOf(front).value, last, imports[i]);
  }

  lemma NewInFront(imports: seq<Import>)
    requires imports != [] && First(imports, |imports| - 1) && ScopeOf(imports[..|imports| - 1]).Ok?
    ensures imports[|imports| - 1].canonical !in ScopeOf(imports[..|imports| - 1]).value.exports
  {
    KnownExactly(imports[..|imports| - 1], imports[|imports| - 1].canonical);
  }

  lemma FirstOfFront(imports: seq<Import>, i: nat)
    requires i < |imports| - 1 && First(imports, i)
    ensures First(imports[..|imports| - 1], i)
  {
  }

  /** The scope knows each imported module with the exports its first import gave, and no other. */
  lemma ScopeKnowsExactly(imports: seq<Import>)
    requires ScopeOf(imports).Ok?
    ensures forall c :: c in ScopeOf(imports).value.exports <==> Imports(imports, c)
    ensures forall i: nat :: i < |imports| && First(imports, i) ==> Gives(ScopeOf(imports).value, imports[i])
  {
    forall c ensures c in ScopeOf(imports).value.exports <==> Imports(imports, c) {
      KnownExactly(imports, c);
    }
    forall i: nat | i < |imports| && First(imports, i) ensures Gives(ScopeOf(imports).value, imports[i]) {
      FirstGives(imports, i);
    }
  }

  /** Every module has a first import. */
  lemma {:induction false} FirstOf(imports: seq<Import>, i: nat) returns (f: nat)
    requires i < |imports|
    ensures f <= i && First(imports, f) && imports[f].canonical == imports[i].canonical
    decreases i
  {
    f := i;
    if j :| 0 <= j < i && imports[j].canonical == imports[i].canonical {
      f := FirstOf(imports, j);
    }
  }

  /** What an import gives is reached by the module's full path, whatever else is imported. */
  lemma ImportedExportIsReached(imports: seq<Import>, i: nat, member: Name)
    requires ScopeOf(imports).Ok? && i < |imports| && First(imports, i)
    requires member in imports[i].exports && !Dotted(member)
    ensures var path := Qualified(imports[i].canonical, member);
            Dotted(path) && ResolveDotted(ScopeOf(imports).value, path) == Ok(path)
  {
    ImportsAreConsistent(imports);
    ScopeKnowsExactly(imports);
    CutQualified(imports[i].canonical, member);
    FullPathAlwaysWorks(ScopeOf(imports).value, imports[i].canonical, member);
  }

  /** No other imported module has this last segment. */
  predicate Alone(imports: seq<Import>, i: nat)
    requires i < |imports|
  {
    forall j :: 0 <= j < |imports| && LastSegment(imports[j].canonical) == LastSegment(imports[i].canonical) ==>
      imports[j].canonical == imports[i].canonical
  }

  lemma FirstTwoDiffer(list: seq<Name>)
    requires |list| > 1 && forall i, j :: 0 <= i < j < |list| ==> list[i] != list[j]
    ensures list[0] != list[1]
  {
  }

  lemma OnlyOne(list: seq<Name>, c: Name)
    requires list != [] && forall j :: 0 <= j < |list| ==> list[j] == c
    requires forall i, j :: 0 <= i < j < |list| ==> list[i] != list[j]
    ensures list == [c]
  {
    if |list| > 1 {
      FirstTwoDiffer(list);
    }
  }

  lemma AliasHolds(imports: seq<Import>, i: nat)
    requires ScopeOf(imports).Ok? && i < |imports|
    ensures var s, c := ScopeOf(imports).value, imports[i].canonical;
            Home(s.aliases, c) && Listed(LastSegment(c), s.aliases[LastSegment(c)])
  {
    ImportsAreConsistent(imports);
    KnownExactly(imports, imports[i].canonical);
  }

  lemma AloneGivesAlias(imports: seq<Import>, i: nat)
    requires ScopeOf(imports).Ok? && i < |imports| && Alone(imports, i)
    ensures var aliases, alias := ScopeOf(imports).value.aliases, LastSegment(imports[i].canonical);
            alias in aliases && aliases[alias] == [imports[i].canonical]
  {
    AliasHolds(imports, i);
    ImportsAreConsistent(imports);
    var s, c := ScopeOf(imports).value, imports[i].canonical;
    var list := s.aliases[LastSegment(c)];
    forall k | 0 <= k < |list| ensures list[k] == c {
      assert list[k] in list;
      KnownExactly(imports, list[k]);
    }
    OnlyOne(list, c);
  }

  lemma AliasIsAlone(imports: seq<Import>, i: nat)
    requires ScopeOf(imports).Ok? && i < |imports|
    requires var aliases, alias := ScopeOf(imports).value.aliases, LastSegment(imports[i].canonical);
             alias in aliases && aliases[alias] == [imports[i].canonical]
    ensures Alone(imports, i)
  {
    var alias := LastSegment(imports[i].canonical);
    forall j | 0 <= j < |imports| && LastSegment(imports[j].canonical) == alias
      ensures imports[j].canonical == imports[i].canonical
    {
      AliasHolds(imports, j);
    }
  }

  lemma AloneIsAlias(imports: seq<Import>, i: nat)
    requires ScopeOf(imports).Ok? && i < |imports|
    ensures var aliases, alias := ScopeOf(imports).value.aliases, LastSegment(imports[i].canonical);
            alias in aliases && (Alone(imports, i) <==> aliases[alias] == [imports[i].canonical])
  {
    AliasHolds(imports, i);
    if Alone(imports, i) {
      AloneGivesAlias(imports, i);
    }
    if ScopeOf(imports).value.aliases[LastSegment(imports[i].canonical)] == [imports[i].canonical] {
      AliasIsAlone(imports, i);
    }
  }

  /** What the text of a dotted reference names, on the list of imports. */
  predicate Names(imports: seq<Import>, i: nat, name: Name, q: Name)
    requires i < |imports| && Dotted(name)
  {
    var cut, c := CutLast(name), imports[i].canonical;
    && First(imports, i) && cut.member in imports[i].exports && q == Qualified(c, cut.member)
    && (cut.prefix == c || (cut.prefix == LastSegment(c) && Alone(imports, i)))
  }

  /**
   * A dotted reference resolves to `q` exactly when `q` is a member some import gave, written by
   * that module's full name or by a last segment no other imported module has.
   */
  lemma DottedMeansImport(imports: seq<Import>, name: Name, q: Name)
    requires ScopeOf(imports).Ok? && Dotted(name)
    ensures ResolveDotted(ScopeOf(imports).value, name) == Ok(q) <==>
            exists i: nat :: i < |imports| && Names(imports, i, name, q)
  {
    var s := ScopeOf(imports).value;
    ImportsAreConsistent(imports);
    ScopeKnowsExactly(imports);
    DottedMeansExport(s, name, q);
    if ResolveDotted(s, name) == Ok(q) {
      var i := ImportMeant(imports, name, q);
    }
    forall i: nat | i < |imports| && Names(imports, i, name, q) ensures ResolveDotted(s, name) == Ok(q) {
      AloneIsAlias(imports, i);
      assert imports[i].canonical in s.exports;
    }
  }

  lemma ImportMeant(imports: seq<Import>, name: Name, q: Name) returns (i: nat)
    requires ScopeOf(imports).Ok? && Dotted(name) && ResolveDotted(ScopeOf(imports).value, name) == Ok(q)
    ensures i < |imports| && Names(imports, i, name, q)
  {
    var s, cut := ScopeOf(imports).value, CutLast(name);
    ImportsAreConsistent(imports);
    ScopeKnowsExactly(imports);
    DottedMeansExport(s, name, q);
    var c :| c in s.exports && cut.member in s.exports[c] && q == Qualified(c, cut.member)
             && (cut.prefix == c || (cut.prefix == LastSegment(c) && s.aliases[LastSegment(c)] == [c]));
    var j: nat :| j < |imports| && imports[j].canonical == c;
    i := FirstOf(imports, j);
    AloneIsAlias(imports, i);
  }

  predicate ShortName(imports: seq<Import>, i: nat, prefix: Name) {
    i < |imports| && LastSegment(imports[i].canonical) == prefix
  }

  /** The two ways a prefix means no module: none has the name, or several share it as their last segment. */
  lemma PrefixFailsExactly(imports: seq<Import>, prefix: Name)
    requires ScopeOf(imports).Ok?
    ensures ResolvePrefix(ScopeOf(imports).value, prefix) == Err(NotImported(prefix)) <==>
            !Imports(imports, prefix) && forall i: nat :: !ShortName(imports, i, prefix)
    ensures ResolvePrefix(ScopeOf(imports).value, prefix) == Err(AmbiguousPrefix(prefix)) <==>
            exists i: nat :: ShortName(imports, i, prefix) && !Alone(imports, i)
  {
    var s := ScopeOf(imports).value;
    KnownExactly(imports, prefix);
    forall i: nat | ShortName(imports, i, prefix)
      ensures prefix in s.aliases && (Alone(imports, i) <==> |s.aliases[prefix]| == 1)
    {
      AloneIsAlias(imports, i);
      AliasHolds(imports, i);
    }
    if prefix in s.aliases {
      ImportsAreConsistent(imports);
      assert Listed(prefix, s.aliases[prefix]);
      var c := s.aliases[prefix][0];
      KnownExactly(imports, c);
      var i :| 0 <= i < |imports| && imports[i].canonical == c;
      assert ShortName(imports, i, prefix);
    }
  }

  predicate Claims(canonical: Name, name: Name) {
    name == LastSegment(canonical) || (name == FirstSegment(canonical) && FirstSegment(canonical) != canonical)
  }

  predicate AnyClaims(imports: seq<Import>, name: Name) {
    exists i :: 0 <= i < |imports| && Claims(imports[i].canonical, name)
  }

  lemma AnyClaimsStep(imports: seq<Import>, name: Name)
    requires imports != []
    ensures var front, last := imports[..|imports| - 1], imports[|imports| - 1];
            AnyClaims(imports, name) <==> AnyClaims(front, name) || Claims(last.canonical, name)
  {
    var front := imports[..|imports| - 1];
    if AnyClaims(front, name) {
      var i :| 0 <= i < |front| && Claims(front[i].canonical, name);
      assert Claims(imports[i].canonical, name);
    }
  }

  /** The names a file may not declare: every import's last segment, and the first of its path. */
  lemma {:induction false} ClaimedExactly(imports: seq<Import>, name: Name)
    requires ScopeOf(imports).Ok?
    ensures name in ScopeOf(imports).value.claimed <==> AnyClaims(imports, name)
    decreases |imports|
  {
    if imports != [] {
      var front, last := imports[..|imports| - 1], imports[|imports| - 1];
      ScopeStep(imports);
      ImportClaims(ScopeOf(front).value, last.canonical, last.exports, name);
      AnyClaimsStep(imports, name);
      ClaimedExactly(front, name);
    }
  }

  /** The name is claimed, and said to be `canonical`'s. */
  predicate ClaimedBy(s: Scope, name: Name, canonical: Name) {
    name in s.claimed && s.claimed[name] == canonical
  }

  lemma ClaimStays(s: Scope, one: Import, name: Name, canonical: Name)
    requires !Collides(s.aliases, one.canonical)
    requires ClaimedBy(s, name, canonical)
             || (name !in s.claimed && Claims(one.canonical, name) && one.canonical == canonical)
    ensures ClaimedBy(Imported(s, one.canonical, one.exports).value, name, canonical)
  {
    TwoClaims(s.claimed, LastSegment(one.canonical), FirstSegment(one.canonical), one.canonical, name);
  }

  lemma TwoClaims(claimed: map<Name, Name>, last: Name, first: Name, canonical: Name, name: Name)
    requires name in claimed || name == last || (name == first && first != canonical)
    ensures var more := Claim(claimed, last, canonical);
            var both := if first != canonical then Claim(more, first, canonical) else more;
            name in both && both[name] == if name in claimed then claimed[name] else canonical
  {
  }

  /** A name that a file may not declare is put down to the first import that claims it. */
  lemma {:induction false} FirstClaims(imports: seq<Import>, i: nat, name: Name)
    requires ScopeOf(imports).Ok? && i < |imports| && Claims(imports[i].canonical, name)
    requires !AnyClaims(imports[..i], name)
    ensures ClaimedBy(ScopeOf(imports).value, name, imports[i].canonical)
    decreases |imports|
  {
    var front, last := imports[..|imports| - 1], imports[|imports| - 1];
    ScopeStep(imports);
    if i < |front| {
      assert front[..i] == imports[..i];
      FirstClaims(front, i, name);
    } else {
      ClaimedExactly(front, name);
    }
    ClaimStays(ScopeOf(front).value, last, name, imports[i].canonical);
  }

  /** Two modules of one last segment, one of which has no longer name to fall back on. */
  predicate Clash(one: Name, two: Name) {
    one != two && LastSegment(one) == LastSegment(two) && (one == LastSegment(one) || two == LastSegment(two))
  }

  predicate ClashesWith(imports: seq<Import>, canonical: Name) {
    exists i :: 0 <= i < |imports| && Clash(imports[i].canonical, canonical)
  }

  predicate ClashAt(imports: seq<Import>, i: nat, j: nat) {
    i < j < |imports| && Clash(imports[i].canonical, imports[j].canonical)
  }

  ghost predicate AnyClash(imports: seq<Import>) {
    exists i: nat, j: nat :: ClashAt(imports, i, j)
  }

  lemma ClashMoves(one: seq<Import>, two: seq<Import>, i: nat, j: nat)
    requires ClashAt(one, i, j) && j < |two| && two[i] == one[i] && two[j] == one[j]
    ensures ClashAt(two, i, j)
  {
  }

  lemma ClashOfFront(imports: seq<Import>)
    requires imports != [] && AnyClash(imports[..|imports| - 1])
    ensures AnyClash(imports)
  {
    var i: nat, j: nat :| ClashAt(imports[..|imports| - 1], i, j);
    ClashMoves(imports[..|imports| - 1], imports, i, j);
  }

  lemma ClashOfLast(imports: seq<Import>)
    requires imports != [] && ClashesWith(imports[..|imports| - 1], imports[|imports| - 1].canonical)
    ensures AnyClash(imports)
  {
    var front, last := imports[..|imports| - 1], imports[|imports| - 1];
    var i: nat :| i < |front| && Clash(front[i].canonical, last.canonical);
    assert imports[i] == front[i];
    assert ClashAt(imports, i, |front|);
  }

  lemma ClashInFront(imports: seq<Import>)
    requires imports != [] && AnyClash(imports)
    ensures var front, last := imports[..|imports| - 1], imports[|imports| - 1];
            AnyClash(front) || ClashesWith(front, last.canonical)
  {
    var front := imports[..|imports| - 1];
    var i: nat, j: nat :| ClashAt(imports, i, j);
    assert imports[i] == front[i];
    if j < |front| {
      ClashMoves(imports, front, i, j);
    }
  }

  lemma ScopeFails(imports: seq<Import>)
    requires imports != []
    ensures var before := ScopeOf(imports[..|imports| - 1]);
            ScopeOf(imports).Err? <==> before.Err? || Collides(before.value.aliases, imports[|imports| - 1].canonical)
  {
  }

  /** A file's imports are refused exactly when two of them clash. */
  lemma {:induction false} RefusedExactly(imports: seq<Import>)
    ensures ScopeOf(imports).Err? <==> AnyClash(imports)
    decreases |imports|
  {
    if imports != [] {
      var front := imports[..|imports| - 1];
      RefusedExactly(front);
      if AnyClash(imports) {
        ClashInFront(imports);
      } else if AnyClash(front) {
        ClashOfFront(imports);
      } else if ClashesWith(front, imports[|front|].canonical) {
        ClashOfLast(imports);
      }
      ScopeFails(imports);
      if ScopeOf(front).Ok? {
        CollidesExactly(front, imports[|imports| - 1].canonical);
      }
    }
  }

  lemma CollidesExactly(imports: seq<Import>, canonical: Name)
    requires ScopeOf(imports).Ok?
    ensures Collides(ScopeOf(imports).value.aliases, canonical) <==> ClashesWith(imports, canonical)
  {
    if Collides(ScopeOf(imports).value.aliases, canonical) {
      CollidesIsClash(imports, canonical);
    }
    if ClashesWith(imports, canonical) {
      ClashCollides(imports, canonical);
    }
  }

  lemma CollidesIsClash(imports: seq<Import>, canonical: Name)
    requires ScopeOf(imports).Ok? && Collides(ScopeOf(imports).value.aliases, canonical)
    ensures ClashesWith(imports, canonical)
  {
    var s, alias := ScopeOf(imports).value, LastSegment(canonical);
    ImportsAreConsistent(imports);
    var list := s.aliases[alias];
    assert Listed(alias, list);
    var c := if canonical == alias then list[0] else alias;
    assert c in list && c in s.exports;
    KnownExactly(imports, c);
    var i :| 0 <= i < |imports| && imports[i].canonical == c;
    assert Clash(imports[i].canonical, canonical);
  }

  lemma ClashCollides(imports: seq<Import>, canonical: Name)
    requires ScopeOf(imports).Ok? && ClashesWith(imports, canonical)
    ensures Collides(ScopeOf(imports).value.aliases, canonical)
  {
    var i :| 0 <= i < |imports| && Clash(imports[i].canonical, canonical);
    AliasHolds(imports, i);
  }

  // ---------------------------------------------------------------- the tree

  datatype Param = Param(site: nat, name: Name)

  datatype Expr =
    | Leaf
    | Ref(name: Name)
    | Call(callee: Expr, args: Exprs, member: bool)
    | Lambda(params: seq<Param>, body: Expr)
    | Block(statements: Stmts)
    | Match(scrutinee: Expr, arms: Arms)
    | Construct(typeName: Name, fields: Exprs)
    | Node(children: Exprs)              // every form the walk only descends into

  datatype Exprs = Nil | Cons(head: Expr, tail: Exprs)

  datatype Stmts =
    | End
    | Eval(value: Expr, rest: Stmts)
    | Let(site: nat, name: Name, mutable: bool, value: Expr, rest: Stmts)
    | LetFun(site: nat, name: Name, params: seq<Param>, body: Expr, rest: Stmts)

  datatype Arms = NoArms | Arm(pattern: Pattern, body: Expr, rest: Arms)

  datatype Pattern = PName(site: nat, name: Name) | PLiteral | PConstructor(name: Name, args: Patterns)
  datatype Patterns = PNil | PCons(head: Pattern, tail: Patterns)

  /** The module being qualified: its name, its own top-level names and what it imports. */
  datatype Ctx = Ctx(moduleName: Name, own: set<Name>, scope: Scope)

  // ---------------------------------------------------------------- the rewrite

  type Frames = seq<set<Name>>

  predicate BoundLocally(frames: Frames, name: Name) {
    exists i :: 0 <= i < |frames| && name in frames[i]
  }

  function Insert(frames: Frames, name: Name): Frames {
    if frames == [] then [] else frames[..|frames| - 1] + [frames[|frames| - 1] + {name}]
  }

  function Declare(c: Ctx, frames: Frames, name: Name): Result<Frames> {
    if name in c.scope.claimed then Err(NameClaimed(name)) else Ok(Insert(frames, name))
  }

  function DeclareAll(c: Ctx, frames: Frames, params: seq<Param>): Result<Frames>
    decreases |params|
  {
    if params == [] then Ok(frames)
    else
      var first := Declare(c, frames, params[0].name);
      if first.Err? then first else DeclareAll(c, first.value, params[1..])
  }

  function Reference(c: Ctx, frames: Frames, name: Name): Result<Name> {
    if Dotted(name) then ResolveDotted(c.scope, name)
    else if BoundLocally(frames, name) then Ok(name)
    else if name in c.own then Ok(Qualified(c.moduleName, name))
    else if name in c.scope.claimed then Err(ModuleIsNotAValue(name))
    else Ok(name)
  }

  function TypeReference(c: Ctx, name: Name): Result<Name> {
    if Dotted(name) then ResolveDotted(c.scope, name)
    else if name in c.own then Ok(Qualified(c.moduleName, name))
    else Ok(name)
  }

  function Rewrite(c: Ctx, frames: Frames, e: Expr): Result<Expr>
    decreases e
  {
    match e
    case Leaf => Ok(Leaf)
    case Ref(name) =>
      var r := Reference(c, frames, name);
      if r.Err? then Err(r.error) else Ok(Ref(r.value))
    case Call(callee, args, member) =>
      var f := if member then Ok(callee) else Rewrite(c, frames, callee);
      if f.Err? then f
      else
        var a := RewriteAll(c, frames, args);
        if a.Err? then Err(a.error) else Ok(Call(f.value, a.value, member))
    case Lambda(params, body) =>
      var inner := DeclareAll(c, frames + [{}], params);
      if inner.Err? then Err(inner.error)
      else
        var b := Rewrite(c, inner.value, body);
        if b.Err? then b else Ok(Lambda(params, b.value))
    case Block(statements) =>
      var s := RewriteBlock(c, frames + [{}], statements);
      if s.Err? then Err(s.error) else Ok(Block(s.value))
    case Match(scrutinee, arms) =>
      var s := Rewrite(c, frames, scrutinee);
      if s.Err? then s
      else
        var a := RewriteArms(c, frames, arms);
        if a.Err? then Err(a.error) else Ok(Match(s.value, a.value))
    case Construct(typeName, fields) =>
      var t := TypeReference(c, typeName);
      if t.Err? then Err(t.error)
      else
        var f := RewriteAll(c, frames, fields);
        if f.Err? then Err(f.error) else Ok(Construct(t.value, f.value))
    case Node(children) =>
      var r := RewriteAll(c, frames, children);
      if r.Err? then Err(r.error) else Ok(Node(r.value))
  }

  function RewriteAll(c: Ctx, frames: Frames, es: Exprs): Result<Exprs>
    decreases es
  {
    match es
    case Nil => Ok(Nil)
    case Cons(head, tail) =>
      var h := Rewrite(c, frames, head);
      if h.Err? then Err(h.error)
      else
        var t := RewriteAll(c, frames, tail);
        if t.Err? then t else Ok(Cons(h.value, t.value))
  }

  /** A binding's value is read before its name binds; a local function's after. */
  function RewriteBlock(c: Ctx, frames: Frames, s: Stmts): Result<Stmts>
    decreases s
  {
    match s
    case End => Ok(End)
    case Eval(value, rest) =>
      var v := Rewrite(c, frames, value);
      if v.Err? then Err(v.error)
      else
        var r := RewriteBlock(c, frames, rest);
        if r.Err? then r else Ok(Eval(v.value, r.value))
    case Let(site, name, mutable, value, rest) =>
      var v := Rewrite(c, frames, value);
      if v.Err? then Err(v.error)
      else if mutable && !BoundLocally(frames, name) && name in c.own then
        var r := RewriteBlock(c, frames, rest);
        if r.Err? then r
        else Ok(Let(site, Qualified(c.moduleName, name), mutable, v.value, r.value))
      else
        var inner := Declare(c, frames, name);
        if inner.Err? then Err(inner.error)
        else
          var r := RewriteBlock(c, inner.value, rest);
          if r.Err? then r else Ok(Let(site, name, mutable, v.value, r.value))
    case LetFun(site, name, params, body, rest) =>
      var outer := Declare(c, frames, name);
      if outer.Err? then Err(outer.error)
      else
        var inner := DeclareAll(c, outer.value + [{}], params);
        if inner.Err? then Err(inner.error)
        else
          var b := Rewrite(c, inner.value, body);
          if b.Err? then Err(b.error)
          else
            var r := RewriteBlock(c, outer.value, rest);
            if r.Err? then r else Ok(LetFun(site, name, params, b.value, r.value))
  }

  function RewriteArms(c: Ctx, frames: Frames, arms: Arms): Result<Arms>
    decreases arms
  {
    match arms
    case NoArms => Ok(NoArms)
    case Arm(pattern, body, rest) =>
      var p := RewritePattern(c, frames + [{}], pattern);
      if p.Err? then Err(p.error)
      else
        var b := Rewrite(c, p.value.1, body);
        if b.Err? then Err(b.error)
        else
          var r := RewriteArms(c, frames, rest);
          if r.Err? then r else Ok(Arm(p.value.0, b.value, r.value))
  }

  function RewritePattern(c: Ctx, frames: Frames, p: Pattern): Result<(Pattern, Frames)>
    decreases p
  {
    match p
    case PName(site, name) =>
      var r := Declare(c, frames, name);
      if r.Err? then Err(r.error) else Ok((p, r.value))
    case PLiteral => Ok((p, frames))
    case PConstructor(name, args) =>
      var t := TypeReference(c, name);
      if t.Err? then Err(t.error)
      else
        var a := RewritePatterns(c, frames, args);
        if a.Err? then Err(a.error) else Ok((PConstructor(t.value, a.value.0), a.value.1))
  }

  function RewritePatterns(c: Ctx, frames: Frames, ps: Patterns): Result<(Patterns, Frames)>
    decreases ps
  {
    match ps
    case PNil => Ok((PNil, frames))
    case PCons(head, tail) =>
      var h := RewritePattern(c, frames, head);
      if h.Err? then Err(h.error)
      else
        var t := RewritePatterns(c, h.value.1, tail);
        if t.Err? then Err(t.error) else Ok((PCons(h.value.0, t.value.0), t.value.1))
  }

  // ---------------------------------------------------------------- two resolutions

  /** What a name means. Own and imported items are pairs, so no spelling is involved. */
  datatype Binder =
    | Local(site: nat)
    | Item(moduleName: Name, name: Name)
    | Free(name: Name)
    | Bad(error: Error)

  type Env = map<Name, nat>

  function DottedBinder(s: Scope, name: Name): Binder
    requires Dotted(name)
  {
    var cut := CutLast(name);
    var found := ResolvePrefix(s, cut.prefix);
    if found.Err? then Bad(found.error)
    else if found.value !in s.exports || cut.member !in s.exports[found.value]
    then Bad(NotExported(found.value, cut.member))
    else Item(found.value, cut.member)
  }

  function ScopedRef(c: Ctx, env: Env, name: Name): Binder {
    if Dotted(name) then DottedBinder(c.scope, name)
    else if name in env then Local(env[name])
    else if name in c.own then Item(c.moduleName, name)
    else if name in c.scope.claimed then Bad(ModuleIsNotAValue(name))
    else Free(name)
  }

  function ScopedType(c: Ctx, name: Name): Binder {
    if Dotted(name) then DottedBinder(c.scope, name)
    else if name in c.own then Item(c.moduleName, name)
    else Free(name)
  }

  /** A declaration means nothing by itself, but may not reuse an imported module's name. */
  function ScopedDeclare(c: Ctx, name: Name): seq<Binder> {
    if name in c.scope.claimed then [Bad(NameClaimed(name))] else []
  }

  function ScopedParams(c: Ctx, params: seq<Param>): seq<Binder> {
    if params == [] then [] else ScopedDeclare(c, params[0].name) + ScopedParams(c, params[1..])
  }

  function WithParams(env: Env, params: seq<Param>): Env
    decreases |params|
  {
    if params == [] then env else WithParams(env[params[0].name := params[0].site], params[1..])
  }

  function WithPattern(env: Env, p: Pattern): Env
    decreases p
  {
    match p
    case PName(site, name) => env[name := site]
    case PLiteral => env
    case PConstructor(_, args) => WithPatterns(env, args)
  }

  function WithPatterns(env: Env, ps: Patterns): Env
    decreases ps
  {
    match ps
    case PNil => env
    case PCons(head, tail) => WithPatterns(WithPattern(env, head), tail)
  }

  /** What every name of the original tree means, in the order written. */
  function Scoped(c: Ctx, env: Env, e: Expr): seq<Binder>
    decreases e
  {
    match e
    case Leaf => []
    case Ref(name) => [ScopedRef(c, env, name)]
    case Call(callee, args, member) =>
      (if member then [] else Scoped(c, env, callee)) + ScopedAll(c, env, args)
    case Lambda(params, body) => ScopedParams(c, params) + Scoped(c, WithParams(env, params), body)
    case Block(statements) => ScopedBlock(c, env, statements)
    case Match(scrutinee, arms) => Scoped(c, env, scrutinee) + ScopedArms(c, env, arms)
    case Construct(typeName, fields) => [ScopedType(c, typeName)] + ScopedAll(c, env, fields)
    case Node(children) => ScopedAll(c, env, children)
  }

  function ScopedAll(c: Ctx, env: Env, es: Exprs): seq<Binder>
    decreases es
  {
    match es
    case Nil => []
    case Cons(head, tail) => Scoped(c, env, head) + ScopedAll(c, env, tail)
  }

  /**
   * `name := value` stores to a visible local or else to the module's own global of that
   * name; otherwise, and always with `=`, it binds a new local for the statements after it.
   */
  function ScopedBlock(c: Ctx, env: Env, s: Stmts): seq<Binder>
    decreases s
  {
    match s
    case End => []
    case Eval(value, rest) => Scoped(c, env, value) + ScopedBlock(c, env, rest)
    case Let(site, name, mutable, value, rest) =>
      Scoped(c, env, value) +
      (if mutable && name in env then
         ScopedDeclare(c, name) + ([Local(env[name])] + ScopedBlock(c, env, rest))
       else if mutable && name in c.own then [Item(c.moduleName, name)] + ScopedBlock(c, env, rest)
       else ScopedDeclare(c, name) + ScopedBlock(c, env[name := site], rest))
    case LetFun(site, name, params, body, rest) =>
      var outer := env[name := site];
      ScopedDeclare(c, name)
      + (ScopedParams(c, params) + (Scoped(c, WithParams(outer, params), body) + ScopedBlock(c, outer, rest)))
  }

  function ScopedArms(c: Ctx, env: Env, arms: Arms): seq<Binder>
    decreases arms
  {
    match arms
    case NoArms => []
    case Arm(pattern, body, rest) =>
      ScopedPattern(c, pattern) + (Scoped(c, WithPattern(env, pattern), body) + ScopedArms(c, env, rest))
  }

  function ScopedPattern(c: Ctx, p: Pattern): seq<Binder>
    decreases p
  {
    match p
    case PName(_, name) => ScopedDeclare(c, name)
    case PLiteral => []
    case PConstructor(name, args) => [ScopedType(c, name)] + ScopedPatterns(c, args)
  }

  function ScopedPatterns(c: Ctx, ps: Patterns): seq<Binder>
    decreases ps
  {
    match ps
    case PNil => []
    case PCons(head, tail) => ScopedPattern(c, head) + ScopedPatterns(c, tail)
  }

  /** A key of the flat table: the pair its spelling stands for, or a built-in. */
  function Named(name: Name): Binder {
    if Dotted(name) then Item(CutLast(name).prefix, CutLast(name).member) else Free(name)
  }

  function FlatRef(env: Env, name: Name): Binder {
    if name in env then Local(env[name]) else Named(name)
  }

  /** What every name of a rewritten tree means where there are no modules. */
  function Flat(env: Env, e: Expr): seq<Binder>
    decreases e
  {
    match e
    case Leaf => []
    case Ref(name) => [FlatRef(env, name)]
    case Call(callee, args, member) => (if member then [] else Flat(env, callee)) + FlatAll(env, args)
    case Lambda(params, body) => Flat(WithParams(env, params), body)
    case Block(statements) => FlatBlock(env, statements)
    case Match(scrutinee, arms) => Flat(env, scrutinee) + FlatArms(env, arms)
    case Construct(typeName, fields) => [Named(typeName)] + FlatAll(env, fields)
    case Node(children) => FlatAll(env, children)
  }

  function FlatAll(env: Env, es: Exprs): seq<Binder>
    decreases es
  {
    match es
    case Nil => []
    case Cons(head, tail) => Flat(env, head) + FlatAll(env, tail)
  }

  function FlatBlock(env: Env, s: Stmts): seq<Binder>
    decreases s
  {
    match s
    case End => []
    case Eval(value, rest) => Flat(env, value) + FlatBlock(env, rest)
    case Let(site, name, mutable, value, rest) =>
      Flat(env, value) +
      (if mutable && (name in env || Dotted(name)) then [FlatRef(env, name)] + FlatBlock(env, rest)
       else FlatBlock(env[name := site], rest))
    case LetFun(site, name, params, body, rest) =>
      var outer := env[name := site];
      Flat(WithParams(outer, params), body) + FlatBlock(outer, rest)
  }

  function FlatArms(env: Env, arms: Arms): seq<Binder>
    decreases arms
  {
    match arms
    case NoArms => []
    case Arm(pattern, body, rest) =>
      FlatPattern(pattern) + (Flat(WithPattern(env, pattern), body) + FlatArms(env, rest))
  }

  function FlatPattern(p: Pattern): seq<Binder>
    decreases p
  {
    match p
    case PName(_, _) => []
    case PLiteral => []
    case PConstructor(name, args) => [Named(name)] + FlatPatterns(args)
  }

  function FlatPatterns(ps: Patterns): seq<Binder>
    decreases ps
  {
    match ps
    case PNil => []
    case PCons(head, tail) => FlatPattern(head) + FlatPatterns(tail)
  }

  // ---------------------------------------------------------------- written identifiers

  /** A written declaration has no dot in its name. */
  predicate Plain(e: Expr)
    decreases e
  {
    match e
    case Leaf => true
    case Ref(_) => true
    case Call(callee, args, _) => Plain(callee) && PlainAll(args)
    case Lambda(params, body) => PlainParams(params) && Plain(body)
    case Block(statements) => PlainBlock(statements)
    case Match(scrutinee, arms) => Plain(scrutinee) && PlainArms(arms)
    case Construct(_, fields) => PlainAll(fields)
    case Node(children) => PlainAll(children)
  }

  predicate PlainAll(es: Exprs)
    decreases es
  {
    match es case Nil => true case Cons(head, tail) => Plain(head) && PlainAll(tail)
  }

  predicate PlainParams(params: seq<Param>) {
    forall i :: 0 <= i < |params| ==> !Dotted(params[i].name)
  }

  predicate PlainBlock(s: Stmts)
    decreases s
  {
    match s
    case End => true
    case Eval(value, rest) => Plain(value) && PlainBlock(rest)
    case Let(_, name, _, value, rest) => !Dotted(name) && Plain(value) && PlainBlock(rest)
    case LetFun(_, name, params, body, rest) =>
      !Dotted(name) && PlainParams(params) && Plain(body) && PlainBlock(rest)
  }

  predicate PlainArms(arms: Arms)
    decreases arms
  {
    match arms
    case NoArms => true
    case Arm(pattern, body, rest) => PlainPattern(pattern) && Plain(body) && PlainArms(rest)
  }

  predicate PlainPattern(p: Pattern)
    decreases p
  {
    match p
    case PName(_, name) => !Dotted(name)
    case PLiteral => true
    case PConstructor(_, args) => PlainPatterns(args)
  }

  predicate PlainPatterns(ps: Patterns)
    decreases ps
  {
    match ps case PNil => true case PCons(head, tail) => PlainPattern(head) && PlainPatterns(tail)
  }

  // ---------------------------------------------------------------- they agree

  ghost predicate Mirrors(frames: Frames, env: Env) {
    && (forall n :: BoundLocally(frames, n) <==> n in env)
    && (forall n :: n in env ==> !Dotted(n))
  }

  ghost predicate Written(c: Ctx) {
    && (forall n :: n in c.own ==> !Dotted(n))
    && (forall m, n :: m in c.scope.exports && n in c.scope.exports[m] ==> !Dotted(n))
  }

  ghost predicate Clean(binders: seq<Binder>) {
    forall i :: 0 <= i < |binders| ==> !binders[i].Bad?
  }

  function FirstBad(binders: seq<Binder>): Option<Error> {
    if binders == [] then None
    else if binders[0].Bad? then Some(binders[0].error)
    else FirstBad(binders[1..])
  }

  /** The outcome of rewriting something, against its meaning before and after. */
  ghost predicate Agree(failed: Option<Error>, before: seq<Binder>, after: seq<Binder>) {
    if failed.Some? then FirstBad(before) == failed else Clean(before) && before == after
  }

  function Failure<T>(r: Result<T>): Option<Error> { if r.Err? then Some(r.error) else None }

  lemma {:induction false} FirstBadJoin(one: seq<Binder>, two: seq<Binder>)
    ensures FirstBad(one).Some? ==> FirstBad(one + two) == FirstBad(one)
    ensures Clean(one) ==> FirstBad(one + two) == FirstBad(two)
    decreases |one|
  {
    if one == [] {
      assert one + two == two;
    } else {
      assert (one + two)[1..] == one[1..] + two;
      FirstBadJoin(one[1..], two);
    }
  }

  /** Two parts that agree, one after the other. */
  lemma AgreeBoth(first: Option<Error>, before: seq<Binder>, after: seq<Binder>,
                  second: Option<Error>, before': seq<Binder>, after': seq<Binder>)
    requires Agree(first, before, after)
    requires first.None? ==> Agree(second, before', after')
    ensures Agree(if first.Some? then first else second, before + before', after + after')
  {
    FirstBadJoin(before, before');
  }

  lemma PushMirrors(frames: Frames, env: Env)
    requires Mirrors(frames, env)
    ensures Mirrors(frames + [{}], env)
  {
    var more := frames + [{}];
    forall n ensures BoundLocally(more, n) <==> n in env {
      assert BoundLocally(frames, n) <==> n in env;
      if BoundLocally(frames, n) {
        var i :| 0 <= i < |frames| && n in frames[i];
        assert n in more[i];
      }
    }
  }

  lemma InsertMirrors(frames: Frames, env: Env, name: Name, site: nat)
    requires Mirrors(frames, env) && frames != [] && !Dotted(name)
    ensures Mirrors(Insert(frames, name), env[name := site])
  {
    var more, last := Insert(frames, name), |frames| - 1;
    assert more[last] == frames[last] + {name};
    assert forall i :: 0 <= i < last ==> more[i] == frames[i];
    forall n ensures BoundLocally(more, n) <==> n in env || n == name {
      assert BoundLocally(frames, n) <==> n in env;
      if BoundLocally(frames, n) {
        var i :| 0 <= i < |frames| && n in frames[i];
        assert n in more[i];
      }
      if n == name {
        assert n in more[last];
      }
    }
  }

  lemma DeclareAgrees(c: Ctx, frames: Frames, env: Env, name: Name, site: nat)
    requires Mirrors(frames, env) && frames != [] && !Dotted(name)
    ensures var r := Declare(c, frames, name);
            && Agree(Failure(r), ScopedDeclare(c, name), [])
            && (r.Ok? ==> r.value != [] && Mirrors(r.value, env[name := site]))
  {
    InsertMirrors(frames, env, name, site);
  }

  lemma {:induction false} ParamsAgree(c: Ctx, frames: Frames, env: Env, params: seq<Param>)
    requires Mirrors(frames, env) && frames != [] && PlainParams(params)
    ensures var r := DeclareAll(c, frames, params);
            && Agree(Failure(r), ScopedParams(c, params), [])
            && (r.Ok? ==> r.value != [] && Mirrors(r.value, WithParams(env, params)))
    decreases |params|
  {
    if params != [] {
      var first := Declare(c, frames, params[0].name);
      DeclareAgrees(c, frames, env, params[0].name, params[0].site);
      if first.Ok? {
        ParamsAgree(c, first.value, env[params[0].name := params[0].site], params[1..]);
        AgreeBoth(None, ScopedDeclare(c, params[0].name), [],
                  Failure(DeclareAll(c, first.value, params[1..])), ScopedParams(c, params[1..]), []);
      } else {
        FirstBadJoin(ScopedDeclare(c, params[0].name), ScopedParams(c, params[1..]));
      }
    }
  }

  /** A dotted name and its rewritten spelling mean one item; no local can capture it. */
  lemma DottedAgrees(c: Ctx, env: Env, name: Name)
    requires Written(c) && Dotted(name) && forall n :: n in env ==> !Dotted(n)
    ensures var r := ResolveDotted(c.scope, name);
            if r.Err? then DottedBinder(c.scope, name) == Bad(r.error)
            else DottedBinder(c.scope, name).Item? && DottedBinder(c.scope, name) == Named(r.value)
                 && r.value !in env
  {
    var cut := CutLast(name);
    var r := ResolveDotted(c.scope, name);
    if r.Ok? {
      CutQualified(ResolvePrefix(c.scope, cut.prefix).value, cut.member);
    }
  }

  lemma ReferenceAgrees(c: Ctx, frames: Frames, env: Env, name: Name)
    requires Written(c) && Mirrors(frames, env)
    ensures var r := Reference(c, frames, name);
            Agree(Failure(r), [ScopedRef(c, env, name)], if r.Ok? then [FlatRef(env, r.value)] else [])
  {
    if Dotted(name) {
      DottedAgrees(c, env, name);
    } else {
      CutQualified(c.moduleName, name);
    }
  }

  lemma TypeAgrees(c: Ctx, name: Name)
    requires Written(c)
    ensures var r := TypeReference(c, name);
            Agree(Failure(r), [ScopedType(c, name)], if r.Ok? then [Named(r.value)] else [])
  {
    if Dotted(name) {
      DottedAgrees(c, map[], name);
    } else {
      CutQualified(c.moduleName, name);
    }
  }

  function FlatOf(env: Env, r: Result<Expr>): seq<Binder> { if r.Ok? then Flat(env, r.value) else [] }
  function FlatAllOf(env: Env, r: Result<Exprs>): seq<Binder> { if r.Ok? then FlatAll(env, r.value) else [] }
  function FlatBlockOf(env: Env, r: Result<Stmts>): seq<Binder> { if r.Ok? then FlatBlock(env, r.value) else [] }
  function FlatArmsOf(env: Env, r: Result<Arms>): seq<Binder> { if r.Ok? then FlatArms(env, r.value) else [] }

  /**
   * Renaming preserves binding: every name of an expression means the same item, local or
   * built-in before and after; when the rewrite fails, it fails with the first name that
   * means nothing.
   */
  lemma {:induction false} RewriteAgrees(c: Ctx, frames: Frames, env: Env, e: Expr)
    requires Written(c) && Mirrors(frames, env) && Plain(e)
    ensures Agree(Failure(Rewrite(c, frames, e)), Scoped(c, env, e), FlatOf(env, Rewrite(c, frames, e)))
    decreases e, 1
  {
    match e
    case Leaf =>
    case Ref(name) => ReferenceAgrees(c, frames, env, name);
    case Call(_, _, _) => CallAgrees(c, frames, env, e);
    case Lambda(params, body) =>
      PushMirrors(frames, env);
      ScopeAgrees(c, frames + [{}], env, params, body);
    case Block(statements) =>
      PushMirrors(frames, env);
      BlockAgrees(c, frames + [{}], env, statements);
    case Match(_, _) => MatchAgrees(c, frames, env, e);
    case Construct(_, _) => ConstructAgrees(c, frames, env, e);
    case Node(children) => AllAgree(c, frames, env, children);
  }

  lemma {:induction false} CallAgrees(c: Ctx, frames: Frames, env: Env, e: Expr)
    requires Written(c) && Mirrors(frames, env) && Plain(e) && e.Call?
    ensures Agree(Failure(Rewrite(c, frames, e)), Scoped(c, env, e), FlatOf(env, Rewrite(c, frames, e)))
    decreases e, 0
  {
    var f := if e.member then Ok(e.callee) else Rewrite(c, frames, e.callee);
    var a := RewriteAll(c, frames, e.args);
    AllAgree(c, frames, env, e.args);
    if e.member {
      AgreeBoth(None, [], [], Failure(a), ScopedAll(c, env, e.args), FlatAllOf(env, a));
    } else {
      RewriteAgrees(c, frames, env, e.callee);
      AgreeBoth(Failure(f), Scoped(c, env, e.callee), FlatOf(env, f),
                Failure(a), ScopedAll(c, env, e.args), FlatAllOf(env, a));
    }
  }

  lemma {:induction false} MatchAgrees(c: Ctx, frames: Frames, env: Env, e: Expr)
    requires Written(c) && Mirrors(frames, env) && Plain(e) && e.Match?
    ensures Agree(Failure(Rewrite(c, frames, e)), Scoped(c, env, e), FlatOf(env, Rewrite(c, frames, e)))
    decreases e, 0
  {
    var s, a := Rewrite(c, frames, e.scrutinee), RewriteArms(c, frames, e.arms);
    RewriteAgrees(c, frames, env, e.scrutinee);
    ArmsAgree(c, frames, env, e.arms);
    AgreeBoth(Failure(s), Scoped(c, env, e.scrutinee), FlatOf(env, s),
              Failure(a), ScopedArms(c, env, e.arms), FlatArmsOf(env, a));
  }

  lemma {:induction false} ConstructAgrees(c: Ctx, frames: Frames, env: Env, e: Expr)
    requires Written(c) && Mirrors(frames, env) && Plain(e) && e.Construct?
    ensures Agree(Failure(Rewrite(c, frames, e)), Scoped(c, env, e), FlatOf(env, Rewrite(c, frames, e)))
    decreases e, 0
  {
    var t, f := TypeReference(c, e.typeName), RewriteAll(c, frames, e.fields);
    TypeAgrees(c, e.typeName);
    AllAgree(c, frames, env, e.fields);
    AgreeBoth(Failure(t), [ScopedType(c, e.typeName)], if t.Ok? then [Named(t.value)] else [],
              Failure(f), ScopedAll(c, env, e.fields), FlatAllOf(env, f));
  }

  /** Parameters and the body they scope over. */
  function RewriteScope(c: Ctx, frames: Frames, params: seq<Param>, body: Expr): Result<Expr> {
    var inner := DeclareAll(c, frames, params);
    if inner.Err? then Err(inner.error) else Rewrite(c, inner.value, body)
  }

  lemma {:induction false} ScopeAgrees(c: Ctx, frames: Frames, env: Env, params: seq<Param>, body: Expr)
    requires Written(c) && Mirrors(frames, env) && frames != [] && PlainParams(params) && Plain(body)
    ensures var r, inside := RewriteScope(c, frames, params, body), WithParams(env, params);
            Agree(Failure(r), ScopedParams(c, params) + Scoped(c, inside, body), FlatOf(inside, r))
    decreases body, 2
  {
    var inner, inside := DeclareAll(c, frames, params), WithParams(env, params);
    ParamsAgree(c, frames, env, params);
    if inner.Ok? {
      RewriteAgrees(c, inner.value, inside, body);
    }
    var r := RewriteScope(c, frames, params, body);
    var b := if inner.Ok? then Rewrite(c, inner.value, body) else r;
    AgreeBoth(Failure(inner), ScopedParams(c, params), [], Failure(b), Scoped(c, inside, body), FlatOf(inside, b));
    assert [] + FlatOf(inside, b) == FlatOf(inside, b);
  }

  lemma {:induction false} AllAgree(c: Ctx, frames: Frames, env: Env, es: Exprs)
    requires Written(c) && Mirrors(frames, env) && PlainAll(es)
    ensures Agree(Failure(RewriteAll(c, frames, es)), ScopedAll(c, env, es),
                  FlatAllOf(env, RewriteAll(c, frames, es)))
    decreases es
  {
    if es.Cons? {
      var h, t := Rewrite(c, frames, es.head), RewriteAll(c, frames, es.tail);
      RewriteAgrees(c, frames, env, es.head);
      AllAgree(c, frames, env, es.tail);
      AgreeBoth(Failure(h), Scoped(c, env, es.head), FlatOf(env, h),
                Failure(t), ScopedAll(c, env, es.tail), FlatAllOf(env, t));
    }
  }

  lemma {:induction false} BlockAgrees(c: Ctx, frames: Frames, env: Env, s: Stmts)
    requires Written(c) && Mirrors(frames, env) && frames != [] && PlainBlock(s)
    ensures Agree(Failure(RewriteBlock(c, frames, s)), ScopedBlock(c, env, s),
                  FlatBlockOf(env, RewriteBlock(c, frames, s)))
    decreases s, 1
  {
    match s
    case End =>
    case Eval(value, rest) =>
      var v, r := Rewrite(c, frames, value), RewriteBlock(c, frames, rest);
      RewriteAgrees(c, frames, env, value);
      BlockAgrees(c, frames, env, rest);
      AgreeBoth(Failure(v), Scoped(c, env, value), FlatOf(env, v),
                Failure(r), ScopedBlock(c, env, rest), FlatBlockOf(env, r));
    case Let(_, _, _, _, _) => LetAgrees(c, frames, env, s);
    case LetFun(_, _, _, _, _) => LetFunAgrees(c, frames, env, s);
  }

  /** The part of a `Let` after its value: the store or the new local, then the rest. */
  function RewriteBound(c: Ctx, frames: Frames, s: Stmts, value: Expr): Result<Stmts>
    requires s.Let?
  {
    if s.mutable && !BoundLocally(frames, s.name) && s.name in c.own then
      var r := RewriteBlock(c, frames, s.rest);
      if r.Err? then r else Ok(Let(s.site, Qualified(c.moduleName, s.name), s.mutable, value, r.value))
    else
      var inner := Declare(c, frames, s.name);
      if inner.Err? then Err(inner.error)
      else
        var r := RewriteBlock(c, inner.value, s.rest);
        if r.Err? then r else Ok(Let(s.site, s.name, s.mutable, value, r.value))
  }

  function ScopedBound(c: Ctx, env: Env, s: Stmts): seq<Binder>
    requires s.Let?
  {
    if s.mutable && s.name in env then
      ScopedDeclare(c, s.name) + ([Local(env[s.name])] + ScopedBlock(c, env, s.rest))
    else if s.mutable && s.name in c.own then [Item(c.moduleName, s.name)] + ScopedBlock(c, env, s.rest)
    else ScopedDeclare(c, s.name) + ScopedBlock(c, env[s.name := s.site], s.rest)
  }

  function FlatBound(env: Env, r: Result<Stmts>): seq<Binder>
    requires r.Ok? ==> r.value.Let?
  {
    if r.Err? then []
    else if r.value.mutable && (r.value.name in env || Dotted(r.value.name))
    then [FlatRef(env, r.value.name)] + FlatBlock(env, r.value.rest)
    else FlatBlock(env[r.value.name := r.value.site], r.value.rest)
  }

  lemma {:induction false} LetAgrees(c: Ctx, frames: Frames, env: Env, s: Stmts)
    requires Written(c) && Mirrors(frames, env) && frames != [] && PlainBlock(s) && s.Let?
    ensures Agree(Failure(RewriteBlock(c, frames, s)), ScopedBlock(c, env, s),
                  FlatBlockOf(env, RewriteBlock(c, frames, s)))
    decreases s, 0
  {
    var v := Rewrite(c, frames, s.value);
    RewriteAgrees(c, frames, env, s.value);
    var value := if v.Ok? then v.value else s.value;
    var r := RewriteBound(c, frames, s, value);
    if s.mutable && s.name in env {
      RestoreAgrees(c, frames, env, s, value);
    } else if s.mutable && s.name in c.own {
      StoreAgrees(c, frames, env, s, value);
    } else {
      BindAgrees(c, frames, env, s, value);
    }
    AgreeBoth(Failure(v), Scoped(c, env, s.value), FlatOf(env, v),
              Failure(r), ScopedBound(c, env, s), FlatBound(env, r));
  }

  /** `name := …` on a visible local: declared again in the same frame, bound as before. */
  lemma {:induction false} RestoreAgrees(c: Ctx, frames: Frames, env: Env, s: Stmts, value: Expr)
    requires Written(c) && Mirrors(frames, env) && frames != [] && PlainBlock(s) && s.Let?
    requires s.mutable && s.name in env
    ensures var r := RewriteBound(c, frames, s, value);
            Agree(Failure(r), ScopedBound(c, env, s), FlatBound(env, r))
    decreases s.rest, 2
  {
    var inner := Declare(c, frames, s.name);
    DeclareAgrees(c, frames, env, s.name, env[s.name]);
    assert env[s.name := env[s.name]] == env;
    var before := [Local(env[s.name])] + ScopedBlock(c, env, s.rest);
    if inner.Ok? {
      var rest := RewriteBlock(c, inner.value, s.rest);
      BlockAgrees(c, inner.value, env, s.rest);
      AgreeBoth(None, [Local(env[s.name])], [Local(env[s.name])],
                Failure(rest), ScopedBlock(c, env, s.rest), FlatBlockOf(env, rest));
      assert ScopedDeclare(c, s.name) + before == before;
    } else {
      FirstBadJoin(ScopedDeclare(c, s.name), before);
    }
  }

  /** `name := …` on the module's own global: the renamed global, and no new local. */
  lemma {:induction false} StoreAgrees(c: Ctx, frames: Frames, env: Env, s: Stmts, value: Expr)
    requires Written(c) && Mirrors(frames, env) && frames != [] && PlainBlock(s) && s.Let?
    requires s.mutable && s.name !in env && s.name in c.own
    ensures var r := RewriteBound(c, frames, s, value);
            Agree(Failure(r), ScopedBound(c, env, s), FlatBound(env, r))
    decreases s.rest, 2
  {
    var rest, global := RewriteBlock(c, frames, s.rest), [Item(c.moduleName, s.name)];
    CutQualified(c.moduleName, s.name);
    assert !BoundLocally(frames, s.name);
    BlockAgrees(c, frames, env, s.rest);
    AgreeBoth(None, global, global, Failure(rest), ScopedBlock(c, env, s.rest), FlatBlockOf(env, rest));
  }

  /** Any other binding: a new local for the rest of the block. */
  lemma {:induction false} BindAgrees(c: Ctx, frames: Frames, env: Env, s: Stmts, value: Expr)
    requires Written(c) && Mirrors(frames, env) && frames != [] && PlainBlock(s) && s.Let?
    requires !(s.mutable && (s.name in env || s.name in c.own))
    ensures var r := RewriteBound(c, frames, s, value);
            Agree(Failure(r), ScopedBound(c, env, s), FlatBound(env, r))
    decreases s.rest, 2
  {
    var inner, inside := Declare(c, frames, s.name), env[s.name := s.site];
    DeclareAgrees(c, frames, env, s.name, s.site);
    if inner.Ok? {
      BlockAgrees(c, inner.value, inside, s.rest);
      assert [] + ScopedBlock(c, inside, s.rest) == ScopedBlock(c, inside, s.rest);
    } else {
      FirstBadJoin(ScopedDeclare(c, s.name), ScopedBlock(c, inside, s.rest));
    }
  }

  lemma Regroup(none: seq<Binder>, a: seq<Binder>, b: seq<Binder>, d: seq<Binder>)
    requires none == []
    ensures none + (a + (b + d)) == (a + b) + d
  {
  }

  lemma {:induction false} LetFunAgrees(c: Ctx, frames: Frames, env: Env, s: Stmts)
    requires Written(c) && Mirrors(frames, env) && frames != [] && PlainBlock(s) && s.LetFun?
    ensures Agree(Failure(RewriteBlock(c, frames, s)), ScopedBlock(c, env, s),
                  FlatBlockOf(env, RewriteBlock(c, frames, s)))
    decreases s, 0
  {
    var outer, outside := Declare(c, frames, s.name), env[s.name := s.site];
    DeclareAgrees(c, frames, env, s.name, s.site);
    var params, body := ScopedParams(c, s.params), Scoped(c, WithParams(outside, s.params), s.body);
    var rest := ScopedBlock(c, outside, s.rest);
    if outer.Ok? {
      PushMirrors(outer.value, outside);
      ScopeAgrees(c, outer.value + [{}], outside, s.params, s.body);
      BlockAgrees(c, outer.value, outside, s.rest);
      var b, r := RewriteScope(c, outer.value + [{}], s.params, s.body), RewriteBlock(c, outer.value, s.rest);
      AgreeBoth(Failure(b), params + body, FlatOf(WithParams(outside, s.params), b),
                Failure(r), rest, FlatBlockOf(outside, r));
      Regroup(ScopedDeclare(c, s.name), params, body, rest);
    } else {
      FirstBadJoin(ScopedDeclare(c, s.name), params + (body + rest));
    }
  }

  lemma {:induction false} ArmsAgree(c: Ctx, frames: Frames, env: Env, arms: Arms)
    requires Written(c) && Mirrors(frames, env) && PlainArms(arms)
    ensures Agree(Failure(RewriteArms(c, frames, arms)), ScopedArms(c, env, arms),
                  FlatArmsOf(env, RewriteArms(c, frames, arms)))
    decreases arms
  {
    if arms.Arm? {
      PushMirrors(frames, env);
      var p, inside := RewritePattern(c, frames + [{}], arms.pattern), WithPattern(env, arms.pattern);
      PatternAgrees(c, frames + [{}], env, arms.pattern);
      var body, rest := Scoped(c, inside, arms.body), ScopedArms(c, env, arms.rest);
      if p.Ok? {
        var b, r := Rewrite(c, p.value.1, arms.body), RewriteArms(c, frames, arms.rest);
        RewriteAgrees(c, p.value.1, inside, arms.body);
        ArmsAgree(c, frames, env, arms.rest);
        AgreeBoth(Failure(b), body, FlatOf(inside, b), Failure(r), rest, FlatArmsOf(env, r));
        AgreeBoth(None, ScopedPattern(c, arms.pattern), FlatPattern(p.value.0),
                  if b.Err? then Failure(b) else Failure(r), body + rest, FlatOf(inside, b) + FlatArmsOf(env, r));
        PatternKeepsEnv(c, frames + [{}], env, arms.pattern);
      } else {
        FirstBadJoin(ScopedPattern(c, arms.pattern), body + rest);
      }
    }
  }

  /** A pattern's names bind the same sites after its constructors are renamed. */
  lemma {:induction false} PatternKeepsEnv(c: Ctx, frames: Frames, env: Env, p: Pattern)
    requires RewritePattern(c, frames, p).Ok?
    ensures WithPattern(env, RewritePattern(c, frames, p).value.0) == WithPattern(env, p)
    decreases p
  {
    if p.PConstructor? {
      PatternsKeepEnv(c, frames, env, p.args);
    }
  }

  lemma {:induction false} PatternsKeepEnv(c: Ctx, frames: Frames, env: Env, ps: Patterns)
    requires RewritePatterns(c, frames, ps).Ok?
    ensures WithPatterns(env, RewritePatterns(c, frames, ps).value.0) == WithPatterns(env, ps)
    decreases ps
  {
    if ps.PCons? {
      PatternKeepsEnv(c, frames, env, ps.head);
      PatternsKeepEnv(c, RewritePattern(c, frames, ps.head).value.1, WithPattern(env, ps.head), ps.tail);
    }
  }

  lemma {:induction false} PatternAgrees(c: Ctx, frames: Frames, env: Env, p: Pattern)
    requires Written(c) && Mirrors(frames, env) && frames != [] && PlainPattern(p)
    ensures var r := RewritePattern(c, frames, p);
            && Agree(Failure(r), ScopedPattern(c, p), if r.Ok? then FlatPattern(r.value.0) else [])
            && (r.Ok? ==> r.value.1 != [] && Mirrors(r.value.1, WithPattern(env, p)))
    decreases p
  {
    match p
    case PName(site, name) => DeclareAgrees(c, frames, env, name, site);
    case PLiteral =>
    case PConstructor(name, args) =>
      var t, a := TypeReference(c, name), RewritePatterns(c, frames, args);
      TypeAgrees(c, name);
      PatternsAgree(c, frames, env, args);
      AgreeBoth(Failure(t), [ScopedType(c, name)], if t.Ok? then [Named(t.value)] else [],
                Failure(a), ScopedPatterns(c, args), if a.Ok? then FlatPatterns(a.value.0) else []);
  }

  lemma {:induction false} PatternsAgree(c: Ctx, frames: Frames, env: Env, ps: Patterns)
    requires Written(c) && Mirrors(frames, env) && frames != [] && PlainPatterns(ps)
    ensures var r := RewritePatterns(c, frames, ps);
            && Agree(Failure(r), ScopedPatterns(c, ps), if r.Ok? then FlatPatterns(r.value.0) else [])
            && (r.Ok? ==> r.value.1 != [] && Mirrors(r.value.1, WithPatterns(env, ps)))
    decreases ps
  {
    if ps.PCons? {
      var h := RewritePattern(c, frames, ps.head);
      PatternAgrees(c, frames, env, ps.head);
      if h.Ok? {
        var t := RewritePatterns(c, h.value.1, ps.tail);
        PatternsAgree(c, h.value.1, WithPattern(env, ps.head), ps.tail);
        AgreeBoth(None, ScopedPattern(c, ps.head), FlatPattern(h.value.0),
                  Failure(t), ScopedPatterns(c, ps.tail), if t.Ok? then FlatPatterns(t.value.0) else []);
      } else {
        FirstBadJoin(ScopedPattern(c, ps.head), ScopedPatterns(c, ps.tail));
      }
    }
  }

  // ---------------------------------------------------------------- a whole module

  const RECEIVER: Name := "it"

  /** A top-level value, a function, or a method with its receiver. */
  datatype Body =
    | Value(value: Expr)
    | Function(params: seq<Param>, body: Expr)
    | Method(receiver: nat, params: seq<Param>, body: Expr)

  /** A top-level item: its name, its variants when it is a sum type, and its code. */
  datatype TopItem = TopItem(name: Name, variants: seq<Name>, bodies: seq<Body>)

  function OwnNames(items: seq<TopItem>): set<Name> {
    if items == [] then {}
    else {items[0].name} + (set v | v in items[0].variants) + OwnNames(items[1..])
  }

  function RewriteBody(c: Ctx, b: Body): Result<Body> {
    match b
    case Value(value) =>
      var r := Rewrite(c, [], value);
      if r.Err? then Err(r.error) else Ok(Value(r.value))
    case Function(params, body) =>
      var r := RewriteScope(c, [{}], params, body);
      if r.Err? then Err(r.error) else Ok(Function(params, r.value))
    case Method(receiver, params, body) =>
      var r := RewriteScope(c, [{RECEIVER}], params, body);
      if r.Err? then Err(r.error) else Ok(Method(receiver, params, r.value))
  }

  function RewriteBodies(c: Ctx, bodies: seq<Body>): Result<seq<Body>>
    decreases |bodies|
  {
    if bodies == [] then Ok([])
    else
      var first := RewriteBody(c, bodies[0]);
      if first.Err? then Err(first.error)
      else
        var rest := RewriteBodies(c, bodies[1..]);
        if rest.Err? then rest else Ok([first.value] + rest.value)
  }

  /** The bodies of every item, in order, each item under its qualified name and variants. */
  function RewriteItems(c: Ctx, items: seq<TopItem>): Result<seq<TopItem>>
    decreases |items|
  {
    if items == [] then Ok([])
    else
      var first := RewriteBodies(c, items[0].bodies);
      if first.Err? then Err(first.error)
      else
        var rest := RewriteItems(c, items[1..]);
        if rest.Err? then rest else Ok([Renamed(c.moduleName, items[0], first.value)] + rest.value)
  }

  function Renamed(moduleName: Name, item: TopItem, bodies: seq<Body>): TopItem {
    TopItem(Qualified(moduleName, item.name),
            seq(|item.variants|, i requires 0 <= i < |item.variants| => Qualified(moduleName, item.variants[i])),
            bodies)
  }

  function FirstClaimed(scope: Scope, items: seq<TopItem>): Option<Error>
    decreases |items|
  {
    if items == [] then None
    else if items[0].name in scope.claimed then Some(NameClaimed(items[0].name))
    else FirstClaimed(scope, items[1..])
  }

  function QualifyModule(moduleName: Name, scope: Scope, items: seq<TopItem>): Result<seq<TopItem>> {
    var claimed := FirstClaimed(scope, items);
    if claimed.Some? then Err(claimed.value)
    else RewriteItems(Ctx(moduleName, OwnNames(items), scope), items)
  }

  function ScopedBody(c: Ctx, b: Body): seq<Binder> {
    match b
    case Value(value) => Scoped(c, map[], value)
    case Function(params, body) => ScopedParams(c, params) + Scoped(c, WithParams(map[], params), body)
    case Method(receiver, params, body) =>
      ScopedParams(c, params) + Scoped(c, WithParams(map[RECEIVER := receiver], params), body)
  }

  function FlatBody(b: Body): seq<Binder> {
    match b
    case Value(value) => Flat(map[], value)
    case Function(params, body) => Flat(WithParams(map[], params), body)
    case Method(receiver, params, body) => Flat(WithParams(map[RECEIVER := receiver], params), body)
  }

  predicate PlainBody(b: Body) {
    match b
    case Value(value) => Plain(value)
    case Function(params, body) => PlainParams(params) && Plain(body)
    case Method(_, params, body) => PlainParams(params) && Plain(body)
  }

  predicate PlainItem(item: TopItem) {
    && !Dotted(item.name)
    && (forall i :: 0 <= i < |item.variants| ==> !Dotted(item.variants[i]))
    && (forall i :: 0 <= i < |item.bodies| ==> PlainBody(item.bodies[i]))
  }

  lemma OneFrameMirrors(names: set<Name>, env: Env)
    requires names == env.Keys && forall n :: n in env ==> !Dotted(n)
    ensures Mirrors([names], env)
  {
    forall n ensures BoundLocally([names], n) <==> n in env {
      assert [names][0] == names;
    }
  }

  lemma BodyAgrees(c: Ctx, b: Body)
    requires Written(c) && PlainBody(b)
    ensures var r := RewriteBody(c, b);
            Agree(Failure(r), ScopedBody(c, b), if r.Ok? then FlatBody(r.value) else [])
  {
    match b
    case Value(value) =>
      assert Mirrors([], map[]);
      RewriteAgrees(c, [], map[], value);
    case Function(params, body) =>
      OneFrameMirrors({}, map[]);
      ScopeAgrees(c, [{}], map[], params, body);
    case Method(receiver, params, body) =>
      OneFrameMirrors({RECEIVER}, map[RECEIVER := receiver]);
      ScopeAgrees(c, [{RECEIVER}], map[RECEIVER := receiver], params, body);
  }

  /** One item and its qualified form: same meaning, code by code. */
  ghost predicate SameMeaning(c: Ctx, item: TopItem, renamed: TopItem) {
    && renamed.name == Qualified(c.moduleName, item.name)
    && |renamed.variants| == |item.variants|
    && (forall i :: 0 <= i < |item.variants| ==>
          renamed.variants[i] == Qualified(c.moduleName, item.variants[i]))
    && SameCode(c, item.bodies, renamed.bodies)
  }

  ghost predicate SameCode(c: Ctx, bodies: seq<Body>, renamed: seq<Body>) {
    && |renamed| == |bodies|
    && forall i :: 0 <= i < |bodies| ==> SameBinders(c, bodies[i], renamed[i])
  }

  ghost predicate SameBinders(c: Ctx, body: Body, renamed: Body) {
    FlatBody(renamed) == ScopedBody(c, body) && Clean(ScopedBody(c, body))
  }

  lemma {:induction false} BodiesAgree(c: Ctx, bodies: seq<Body>)
    requires Written(c) && forall i :: 0 <= i < |bodies| ==> PlainBody(bodies[i])
    ensures var r := RewriteBodies(c, bodies);
            if r.Ok? then SameCode(c, bodies, r.value)
            else exists i :: 0 <= i < |bodies| && FirstBad(ScopedBody(c, bodies[i])) == Some(r.error)
    decreases |bodies|
  {
    if bodies != [] {
      BodyAgrees(c, bodies[0]);
      BodiesAgree(c, bodies[1..]);
      var first, rest := RewriteBody(c, bodies[0]), RewriteBodies(c, bodies[1..]);
      if first.Ok? && rest.Ok? {
        SameCodeJoins(c, bodies, first.value, rest.value);
      } else if first.Ok? {
        var i :| 0 <= i < |bodies[1..]| && FirstBad(ScopedBody(c, bodies[1..][i])) == Some(rest.error);
        assert bodies[1..][i] == bodies[i + 1];
      }
    }
  }

  lemma SameCodeJoins(c: Ctx, bodies: seq<Body>, first: Body, rest: seq<Body>)
    requires bodies != [] && SameCode(c, bodies[1..], rest)
    requires SameBinders(c, bodies[0], first)
    ensures SameCode(c, bodies, [first] + rest)
  {
    var renamed := [first] + rest;
    forall i | 0 < i < |bodies| ensures SameBinders(c, bodies[i], renamed[i]) {
      assert bodies[1..][i - 1] == bodies[i] && renamed[i] == rest[i - 1];
    }
  }

  lemma {:induction false} ItemsAgree(c: Ctx, items: seq<TopItem>)
    requires Written(c) && forall i :: 0 <= i < |items| ==> PlainItem(items[i])
    ensures var r := RewriteItems(c, items);
            if r.Ok? then |r.value| == |items| && forall i :: 0 <= i < |items| ==> SameMeaning(c, items[i], r.value[i])
            else exists i, j :: 0 <= i < |items| && 0 <= j < |items[i].bodies|
                                && FirstBad(ScopedBody(c, items[i].bodies[j])) == Some(r.error)
    decreases |items|
  {
    if items != [] {
      BodiesAgree(c, items[0].bodies);
      ItemsAgree(c, items[1..]);
      var rest := RewriteItems(c, items[1..]);
      if rest.Err? {
        var i, j :| 0 <= i < |items[1..]| && 0 <= j < |items[1..][i].bodies|
                    && FirstBad(ScopedBody(c, items[1..][i].bodies[j])) == Some(rest.error);
        assert items[1..][i] == items[i + 1];
      }
    }
  }

  lemma {:induction false} OwnNamesPlain(items: seq<TopItem>)
    requires forall i :: 0 <= i < |items| ==> PlainItem(items[i])
    ensures forall n :: n in OwnNames(items) ==> !Dotted(n)
    decreases |items|
  {
    if items != [] {
      assert PlainItem(items[0]);
      OwnNamesPlain(items[1..]);
    }
  }

  /**
   * Qualifying a module preserves every binding in it: when it succeeds, each item stands
   * under its qualified name and each name in its code means in the flat namespace what it
   * meant in the module; when it fails, some name of the module has no meaning or reuses an
   * import's.
   */
  lemma ModuleKeepsMeaning(moduleName: Name, scope: Scope, items: seq<TopItem>)
    requires forall i :: 0 <= i < |items| ==> PlainItem(items[i])
    requires forall m, n :: m in scope.exports && n in scope.exports[m] ==> !Dotted(n)
    ensures var c := Ctx(moduleName, OwnNames(items), scope);
            var r := QualifyModule(moduleName, scope, items);
            if r.Ok? then
              && |r.value| == |items|
              && (forall i :: 0 <= i < |items| ==> SameMeaning(c, items[i], r.value[i]))
            else
              || FirstClaimed(scope, items) == Some(r.error)
              || exists i, j :: 0 <= i < |items| && 0 <= j < |items[i].bodies|
                                && FirstBad(ScopedBody(c, items[i].bodies[j])) == Some(r.error)
  {
    OwnNamesPlain(items);
    ItemsAgree(Ctx(moduleName, OwnNames(items), scope), items);
  }
}
