/** `eatCompound` on heap nodes: children are linked to their container first and filled
    afterwards, and a container turns into a vector while its children arrive. */
module CompoundNodes {
  import opened PropertyTree
  import opened CompoundValue

  class Node {
    var name: string
    var kind: Kind
    var text: string
    var childV: seq<Node>

    /** The objects below and including this one, and the tree they spell. */
    ghost var repr: set<Node>
    ghost var tree: Compound

    ghost predicate Valid()
      reads this, repr
      decreases repr
    {
      && this in repr
      && tree.name == name && tree.kind == kind && tree.text == text && |tree.children| == |childV|
      && (forall i | 0 <= i < |childV| ::
            && childV[i] in repr && childV[i].repr <= repr && this !in childV[i].repr
            && childV[i].Valid() && tree.children[i] == childV[i].tree)
      && (forall i, j | 0 <= i < j < |childV| :: childV[i].repr !! childV[j].repr)
    }

    constructor (name: string, kind: Kind, text: string)
      ensures Valid() && fresh(repr) && tree == Compound(name, kind, text, [])
    {
      this.name, this.kind, this.text, childV := name, kind, text, [];
      repr, tree := {this}, Compound(name, kind, text, []);
    }

    /** `CompoundValueNode::add`. */
    method Add(kind: Kind, name: string, text: string) returns (child: Node)
      requires Valid()
      modifies this
      ensures Valid() && fresh(repr - old(repr)) && tree == CompoundValue.Add(old(tree), child.tree)
      ensures childV == old(childV) + [child] && child.Valid() && fresh(child.repr)
      ensures child.tree == Compound(name, kind, text, [])
      ensures this.kind == old(this.kind)
    {
      child := new Node(name, kind, text);
      childV := childV + [child];
      repr := repr + child.repr;
      tree := CompoundValue.Add(tree, child.tree);
    }

    /** `valueType = ValueTypeVector`. */
    method MarkVector()
      requires Valid()
      modifies this
      ensures Valid() && repr == old(repr) && tree == AsVector(old(tree)) && childV == old(childV)
    {
      kind := KVector;
      tree := AsVector(tree);
    }

    /** After the last child was filled in place, the tree above it is spelled again. */
    ghost method Refill(before: Compound, rest: set<Node>)
      requires childV != []
      requires var n := |childV| - 1;
        && before.name == name && before.kind == kind && before.text == text && |before.children| == n
        && this in rest && this !in childV[n].repr && rest !! childV[n].repr && childV[n].Valid()
        && (forall i | 0 <= i < n ::
              && childV[i] in rest && childV[i].repr <= rest && this !in childV[i].repr
              && childV[i].Valid() && before.children[i] == childV[i].tree)
        && (forall i, j | 0 <= i < j < n :: childV[i].repr !! childV[j].repr)
      modifies this`repr, this`tree
      ensures Valid() && repr == rest + childV[|childV| - 1].repr
      ensures tree == CompoundValue.Add(before, childV[|childV| - 1].tree)
    {
      repr := rest + childV[|childV| - 1].repr;
      tree := CompoundValue.Add(before, childV[|childV| - 1].tree);
    }

    /** Links a container under this one and fills it. */
    method FillNew(name: string, es: seq<Entry>) returns (ok: bool)
      requires Valid()
      modifies repr
      ensures Valid() && fresh(repr - old(repr))
      ensures var (inner, good) := EatAll(Compound(name, KObject, "", []), es);
              tree == CompoundValue.Add(old(tree), inner) && ok == good
      decreases es, 1
    {
      ghost var before, rest := tree, repr;
      var child := Add(KObject, name, "");
      ok := child.TakeAll(es);
      Refill(before, rest);
    }

    /** `eatCompound` below the root. */
    method Take(e: Entry) returns (ok: bool)
      requires Valid()
      modifies repr
      ensures Valid() && fresh(repr - old(repr))
      ensures (tree, ok) == Eat(old(tree), e)
      decreases e, 1
    {
      ok := true;
      if e.key != "" && e.data != "" {
        if ForbiddenChars(e.data) {
          return false;
        }
        var _ := Add(KString, e.key, e.data);
        ok := TakeAll(e.children);
      } else if e.key == "" && e.data == "" && e.children == [] {
        var _ := Add(KString, ITEM, "");
      } else if e.key != "" && e.data == "" && e.children == [] {
        var _ := Add(KString, e.key, "");
      } else if e.key != "" {
        ok := FillNew(e.key, e.children);
      } else if e.data == "" {
        MarkVector();
        ok := FillNew(ITEM, e.children);
      } else {
        MarkVector();
        var _ := Add(KString, ITEM, e.data);
        ok := TakeAll(e.children);
      }
    }

    /** All children are called like the first. */
    method NamesAgree() returns (b: bool)
      requires Valid()
      ensures b == SameNames(tree.children)
    {
      if |childV| == 0 {
        return true;
      }
      for i := 1 to |childV|
        invariant forall k | 0 <= k < i :: childV[k].name == childV[0].name
      {
        if childV[i].name != childV[0].name {
          assert tree.children[i].name != tree.children[0].name;
          return false;
        }
      }
      return true;
    }

    /** No two children are called the same. */
    method NamesDiffer() returns (b: bool)
      requires Valid()
      ensures b == DifferentNames(tree.children)
    {
      for i := 0 to |childV|
        invariant forall k, l | 0 <= k < i && k < l < |childV| :: childV[k].name != childV[l].name
      {
        for j := i + 1 to |childV|
          invariant forall l | i < l < j :: childV[i].name != childV[l].name
        {
          if childV[i].name == childV[j].name {
            assert tree.children[i].name == tree.children[j].name;
            return false;
          }
        }
      }
      return true;
    }

    /** `CompoundValueNode::check`. */
    method Check() returns (f: Finding)
      requires Valid()
      ensures f == CompoundValue.Check(tree)
      decreases repr
    {
      if kind == KVector {
        var ok := NamesAgree();
        if !ok { return Flawed; }
      } else if kind == KObject {
        var ok := NamesDiffer();
        if !ok { return Flawed; }
      } else if ForbiddenChars(text) {
        return Ended;
      }
      for i := 0 to |childV|
        invariant CheckAll(tree.children[i..]) == CheckAll(tree.children)
      {
        CheckAllStep(tree.children, i);
        f := childV[i].Check();
        if !f.Fine? {
          return;
        }
      }
      return Fine;
    }

    /** The loop over the children of a property-tree node. */
    method TakeAll(es: seq<Entry>) returns (ok: bool)
      requires Valid()
      modifies repr
      ensures Valid() && fresh(repr - old(repr))
      ensures (tree, ok) == EatAll(old(tree), es)
      decreases es, 0
    {
      ok := true;
      for i := 0 to |es|
        invariant Valid() && fresh(repr - old(repr))
        invariant var (c, good) := EatAll(tree, es[i..]); (c, ok && good) == EatAll(old(tree), es)
      {
        assert es[i..][1..] == es[i + 1..];
        var good := Take(es[i]);
        ok := ok && good;
      }
    }
  }

  lemma CheckAllStep(cs: seq<Compound>, i: nat)
    requires i < |cs|
    ensures CheckAll(cs[i..]) == if CompoundValue.Check(cs[i]).Fine? then CheckAll(cs[i + 1..]) else CompoundValue.Check(cs[i])
  {
    assert cs[i..][1..] == cs[i + 1..];
  }

  /** `eatCompound` at the root: a fresh object, whose tree is the image of the property tree. */
  method EatCompound(e: Entry) returns (root: Node, ok: bool)
    requires JsonShape(e)
    ensures root.Valid() && fresh(root.repr)
    ensures ok <==> !AnyRejected(e.children)
    ensures ok ==> root.tree == Compound(TOPLEVEL, if AnyMarksVector(e.children) then KVector else KObject, "", Images(e.children))
  {
    CompoundIsImage(e);
    root := new Node(TOPLEVEL, KObject, "");
    ok := root.TakeAll(e.children);
  }
}
