/**
 * The names of a linked program (src/modules.rs and src/ast/qualify.rs together): the loader's
 * distinct canonical names and the injectivity of qualified names give one flat namespace.
 */
module LinkedNames {
  import opened Loader
  import Qualify

  /** The items each emitted module declares, by their bare names. */
  type Declared = seq<seq<string>>

  predicate Plain(names: seq<string>) { forall i :: 0 <= i < |names| ==> !Qualify.Dotted(names[i]) }

  predicate NoRepeats(names: seq<string>) { forall i, j :: 0 <= i < j < |names| ==> names[i] != names[j] }

  /** The names of all items of a linked program: the modules' qualified, the root's bare. */
  function LinkedNames(out: seq<Module>, declared: Declared, root: seq<string>): seq<string>
    requires |declared| == |out|
  {
    if out == [] then root
    else
      var last := |out| - 1;
      LinkedNames(out[..last], declared[..last], root) + QualifiedAll(out[last].name, declared[last])
  }

  function QualifiedAll(name: string, items: seq<string>): (all: seq<string>)
    ensures |all| == |items|
    ensures forall i :: 0 <= i < |items| ==> all[i] == Qualify.Qualified(name, items[i])
  {
    seq(|items|, i requires 0 <= i < |items| => Qualify.Qualified(name, items[i]))
  }

  /** A name of the linked program is a bare one of the root's or one of an emitted module. */
  lemma {:induction false} WhereFrom(out: seq<Module>, declared: Declared, root: seq<string>, x: string)
    returns (m: nat, name: string)
    requires |declared| == |out| && x in LinkedNames(out, declared, root)
    ensures x in root || (m < |out| && name in declared[m] && x == Qualify.Qualified(out[m].name, name))
    decreases |out|
  {
    m, name := 0, "";
    if out != [] {
      var last := |out| - 1;
      var all := QualifiedAll(out[last].name, declared[last]);
      if x in all {
        var i :| 0 <= i < |all| && all[i] == x;
        m, name := last, declared[last][i];
      } else {
        m, name := WhereFrom(out[..last], declared[..last], root, x);
      }
    }
  }

  /** No two items of a linked program share a name, if none does within one file. */
  lemma {:induction false} NamesAreDistinct(out: seq<Module>, declared: Declared, root: seq<string>)
    requires |declared| == |out| && DistinctNames(out)
    requires Plain(root) && NoRepeats(root)
    requires forall m :: 0 <= m < |declared| ==> Plain(declared[m]) && NoRepeats(declared[m])
    ensures NoRepeats(LinkedNames(out, declared, root))
    decreases |out|
  {
    if out != [] {
      var last := |out| - 1;
      var front, all := LinkedNames(out[..last], declared[..last], root), QualifiedAll(out[last].name, declared[last]);
      NamesAreDistinct(out[..last], declared[..last], root);
      forall i, j | 0 <= i < j < |all| ensures all[i] != all[j] {
        Qualify.QualifiedIsInjective(out[last].name, declared[last][i], out[last].name, declared[last][j]);
      }
      forall i, j | 0 <= i < |front| && 0 <= j < |all| ensures front[i] != all[j] {
        NewNameIsNew(out, declared, root, front[i], declared[last][j]);
      }
    }
  }

  lemma NewNameIsNew(out: seq<Module>, declared: Declared, root: seq<string>, x: string, item: string)
    requires |declared| == |out| > 0 && DistinctNames(out) && Plain(root) && !Qualify.Dotted(item)
    requires forall m :: 0 <= m < |declared| ==> Plain(declared[m])
    requires x in LinkedNames(out[..|out| - 1], declared[..|out| - 1], root)
    ensures x != Qualify.Qualified(out[|out| - 1].name, item)
  {
    var last := |out| - 1;
    var m, name := WhereFrom(out[..last], declared[..last], root, x);
    if x in root {
      Qualify.QualifiedIsInjective(out[last].name, item, "", x);
    } else {
      Qualify.QualifiedIsInjective(out[m].name, name, out[last].name, item);
    }
  }

  /** In particular for whatever `Link` returns. */
  lemma LinkedNamesAreDistinct(p: Program, out: seq<Module>, declared: Declared, root: seq<string>)
    requires Linked(p, out) && |declared| == |out|
    requires Plain(root) && NoRepeats(root)
    requires forall m :: 0 <= m < |declared| ==> Plain(declared[m]) && NoRepeats(declared[m])
    ensures NoRepeats(LinkedNames(out, declared, root))
  {
    NamesAreDistinct(out, declared, root);
  }
}
