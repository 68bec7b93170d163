/** Identity: the semantic identity of an asset, its ancestors' types and names
    followed by its own, compared through its rendering. */
module Identities {
  import opened Wrappers
  import opened Text
  import opened Assets

  /** The two ancestor lists are filled together, ancestors outermost first. */
  datatype Identity = Identity(
    typesInOrder: seq<Option<string>>,
    namesInOrder: seq<Option<string>>,
    assetType: Option<string>,
    assetName: Option<string>)

  predicate WellFormed(id: Identity) {
    |id.typesInOrder| == |id.namesInOrder|
  }

  /** new Identity(): no ancestors, and the empty string (not null) for the asset. */
  function EmptyIdentity(): (id: Identity)
    ensures WellFormed(id) && |id.typesInOrder| == 0
    ensures id.assetType == Some("") && id.assetName == Some("")
  {
    Identity([], [], Some(""), Some(""))
  }

  /** The identity built from an asset's context, type and name: one entry per
      context element, its type and name, in context order. */
  function IdentityOf(context: seq<Asset>, assetType: Option<string>, assetName: Option<string>): (id: Identity)
    ensures WellFormed(id) && |id.typesInOrder| == |context|
    ensures forall i :: 0 <= i < |context| ==>
      id.typesInOrder[i] == context[i].typ && id.namesInOrder[i] == context[i].name
    ensures id.assetType == assetType && id.assetName == assetName
  {
    Identity(
      seq(|context|, i requires 0 <= i < |context| => context[i].typ),
      seq(|context|, i requires 0 <= i < |context| => context[i].name),
      assetType, assetName)
  }

  /** new Identity(context, assetType, assetName): starts empty, appends each
      context element's type and name, then sets the asset's own. */
  method NewIdentity(context: seq<Asset>, assetType: Option<string>, assetName: Option<string>)
    returns (id: Identity)
    ensures id == IdentityOf(context, assetType, assetName)
  {
    id := EmptyIdentity();
    for i := 0 to |context|
      invariant |id.typesInOrder| == i && |id.namesInOrder| == i
      invariant forall j :: 0 <= j < i ==>
        id.typesInOrder[j] == context[j].typ && id.namesInOrder[j] == context[j].name
    {
      id := id.(typesInOrder := id.typesInOrder + [context[i].typ],
                namesInOrder := id.namesInOrder + [context[i].name]);
    }
    id := id.(assetType := assetType, assetName := assetName);
  }

  /** "(" + type + ")=" + name, with Java's rendering of null. */
  function Segment(t: Option<string>, n: Option<string>): string {
    "(" + NullText(t) + ")=" + NullText(n)
  }

  /** The ancestors from position `from` up to `to`, each followed by "::". */
  function Span(ts: seq<Option<string>>, ns: seq<Option<string>>, from: nat, to: nat): string
    requires from <= to <= |ts| && |ns| == |ts|
    decreases (to as int) - (from as int)
  {
    if from == to then "" else Span(ts, ns, from, to - 1) + Segment(ts[to - 1], ns[to - 1]) + "::"
  }

  /** What toString renders. */
  function Render(id: Identity): (r: string)
    requires WellFormed(id)
    ensures var own := Segment(id.assetType, id.assetName);
      |own| <= |r| && r[|r| - |own|..] == own
  {
    Span(id.typesInOrder, id.namesInOrder, 0, |id.typesInOrder|) + Segment(id.assetType, id.assetName)
  }

  /** toString: the ancestors in order, then the asset itself. */
  method ToString(id: Identity) returns (s: string)
    requires WellFormed(id)
    ensures s == Render(id)
  {
    s := "";
    for i := 0 to |id.typesInOrder|
      invariant s == Span(id.typesInOrder, id.namesInOrder, 0, i)
    {
      s := s + Segment(id.typesInOrder[i], id.namesInOrder[i]) + "::";
    }
    s := s + Segment(id.assetType, id.assetName);
  }

  /** equals(identity): the two renderings are the same string. */
  predicate Equals(a: Identity, b: Identity)
    requires WellFormed(a) && WellFormed(b)
    ensures a == b ==> Equals(a, b)
    ensures |a.typesInOrder| == 0 && |b.typesInOrder| == 0 ==>
      (Equals(a, b) <==> Segment(a.assetType, a.assetName) == Segment(b.assetType, b.assetName))
  {
    Render(a) == Render(b)
  }

  /** The empty identity renders as "()=". */
  lemma EmptyIdentityRendering()
    ensures Render(EmptyIdentity()) == "()="
  {
  }

  /** An asset without context renders as its own segment alone. */
  lemma ContextFreeRendering(assetType: Option<string>, assetName: Option<string>)
    ensures Render(IdentityOf([], assetType, assetName)) == Segment(assetType, assetName)
  {
  }

  lemma {:induction false} SpanSplit(ts: seq<Option<string>>, ns: seq<Option<string>>, from: nat, mid: nat, to: nat)
    requires from <= mid <= to <= |ts| && |ns| == |ts|
    ensures Span(ts, ns, from, to) == Span(ts, ns, from, mid) + Span(ts, ns, mid, to)
    decreases (to as int) - (mid as int)
  {
    if mid < to {
      SpanSplit(ts, ns, from, mid, to - 1);
    }
  }

  lemma {:induction false} SpanAgrees(ts: seq<Option<string>>, ns: seq<Option<string>>,
                                       ts': seq<Option<string>>, ns': seq<Option<string>>, from: nat, to: nat)
    requires from <= to <= |ts| && |ns| == |ts| && |ts'| == |ts| && |ns'| == |ts|
    requires forall j :: from <= j < to ==> ts[j] == ts'[j] && ns[j] == ns'[j]
    ensures Span(ts, ns, from, to) == Span(ts', ns', from, to)
    decreases (to as int) - (from as int)
  {
    if from < to {
      SpanAgrees(ts, ns, ts', ns', from, to - 1);
    }
  }

  /** The rendering around ancestor i: what precedes it, its segment, what follows. */
  lemma AncestorDecomposition(id: Identity, i: nat)
    requires WellFormed(id) && i < |id.typesInOrder|
    ensures Render(id) ==
      Span(id.typesInOrder, id.namesInOrder, 0, i)
      + Segment(id.typesInOrder[i], id.namesInOrder[i])
      + ("::" + Span(id.typesInOrder, id.namesInOrder, i + 1, |id.typesInOrder|) + Segment(id.assetType, id.assetName))
  {
    var ts, ns := id.typesInOrder, id.namesInOrder;
    var before, seg := Span(ts, ns, 0, i), Segment(ts[i], ns[i]);
    var after, own := Span(ts, ns, i + 1, |ts|), Segment(id.assetType, id.assetName);
    SpanSplit(ts, ns, 0, i + 1, |ts|);
    assert Span(ts, ns, 0, i + 1) == before + seg + "::";
    Regroup(before, seg, "::", after, own);
  }

  lemma Regroup(a: string, b: string, c: string, d: string, e: string)
    ensures a + b + c + d + e == a + b + (c + d + e)
  {
  }

  /** Renaming the asset to a different text changes the identity. */
  lemma AssetNameDistinguishes(a: Identity, n: Option<string>)
    requires WellFormed(a) && NullText(n) != NullText(a.assetName)
    ensures !Equals(a, a.(assetName := n))
  {
    var b := a.(assetName := n);
    if Equals(a, b) {
      var p := Span(a.typesInOrder, a.namesInOrder, 0, |a.typesInOrder|) + "(" + NullText(a.assetType) + ")=";
      RenderAroundName(a);
      RenderAroundName(b);
      assert p + NullText(a.assetName) + "" == p + NullText(n) + "";
      CancelAround(p, NullText(a.assetName), NullText(n), "");
      assert false;
    }
  }

  /** The rendering with the asset's name text singled out. */
  lemma RenderAroundName(a: Identity)
    requires WellFormed(a)
    ensures Render(a) == Span(a.typesInOrder, a.namesInOrder, 0, |a.typesInOrder|) + "(" + NullText(a.assetType) + ")="
                         + NullText(a.assetName) + ""
  {
  }

  /** Retyping the asset to a different text changes the identity. */
  lemma AssetTypeDistinguishes(a: Identity, t: Option<string>)
    requires WellFormed(a) && NullText(t) != NullText(a.assetType)
    ensures !Equals(a, a.(assetType := t))
  {
    var b := a.(assetType := t);
    if Equals(a, b) {
      var p := Span(a.typesInOrder, a.namesInOrder, 0, |a.typesInOrder|) + "(";
      var q := ")=" + NullText(a.assetName);
      RenderAroundType(a);
      RenderAroundType(b);
      assert p + NullText(a.assetType) + q == p + NullText(t) + q;
      CancelAround(p, NullText(a.assetType), NullText(t), q);
      assert false;
    }
  }

  /** The rendering with the asset's type text singled out. */
  lemma RenderAroundType(a: Identity)
    requires WellFormed(a)
    ensures Render(a) == Span(a.typesInOrder, a.namesInOrder, 0, |a.typesInOrder|) + "(" + NullText(a.assetType)
                         + (")=" + NullText(a.assetName))
  {
    Regroup(Span(a.typesInOrder, a.namesInOrder, 0, |a.typesInOrder|), "(", NullText(a.assetType), ")=", NullText(a.assetName));
  }

  /** Changing the type of one ancestor to a different text changes the identity. */
  lemma AncestorTypeDistinguishes(a: Identity, i: nat, t: Option<string>)
    requires WellFormed(a) && i < |a.typesInOrder| && NullText(t) != NullText(a.typesInOrder[i])
    ensures !Equals(a, a.(typesInOrder := a.typesInOrder[i := t]))
  {
    var b := a.(typesInOrder := a.typesInOrder[i := t]);
    if Equals(a, b) {
      AncestorDecomposition(a, i);
      AncestorDecomposition(b, i);
      SpanAgrees(a.typesInOrder, a.namesInOrder, b.typesInOrder, b.namesInOrder, 0, i);
      SpanAgrees(a.typesInOrder, a.namesInOrder, b.typesInOrder, b.namesInOrder, i + 1, |a.typesInOrder|);
      var p := Span(a.typesInOrder, a.namesInOrder, 0, i);
      var q := "::" + Span(a.typesInOrder, a.namesInOrder, i + 1, |a.typesInOrder|) + Segment(a.assetType, a.assetName);
      CancelAround(p, Segment(a.typesInOrder[i], a.namesInOrder[i]), Segment(t, a.namesInOrder[i]), q);
      SegmentTypeCancels(a.typesInOrder[i], t, a.namesInOrder[i]);
      assert false;
    }
  }

  /** Two segments with the same name agree only when their types render alike. */
  lemma SegmentTypeCancels(t: Option<string>, t': Option<string>, name: Option<string>)
    requires Segment(t, name) == Segment(t', name)
    ensures NullText(t) == NullText(t')
  {
    var n := NullText(name);
    assert Segment(t, name) == "(" + NullText(t) + (")=" + n);
    assert Segment(t', name) == "(" + NullText(t') + (")=" + n);
    CancelAround("(", NullText(t), NullText(t'), ")=" + n);
  }

  /** Changing the name of one ancestor to a different text changes the identity. */
  lemma AncestorNameDistinguishes(a: Identity, i: nat, n: Option<string>)
    requires WellFormed(a) && i < |a.namesInOrder| && NullText(n) != NullText(a.namesInOrder[i])
    ensures !Equals(a, a.(namesInOrder := a.namesInOrder[i := n]))
  {
    var b := a.(namesInOrder := a.namesInOrder[i := n]);
    if Equals(a, b) {
      AncestorDecomposition(a, i);
      AncestorDecomposition(b, i);
      SpanAgrees(a.typesInOrder, a.namesInOrder, b.typesInOrder, b.namesInOrder, 0, i);
      SpanAgrees(a.typesInOrder, a.namesInOrder, b.typesInOrder, b.namesInOrder, i + 1, |a.typesInOrder|);
      var p := Span(a.typesInOrder, a.namesInOrder, 0, i);
      var q := "::" + Span(a.typesInOrder, a.namesInOrder, i + 1, |a.typesInOrder|) + Segment(a.assetType, a.assetName);
      CancelAround(p, Segment(a.typesInOrder[i], a.namesInOrder[i]), Segment(a.typesInOrder[i], n), q);
      CancelAround("(" + NullText(a.typesInOrder[i]) + ")=", NullText(a.namesInOrder[i]), NullText(n), "");
      assert false;
    }
  }

  /** Because null renders as "null", an unnamed asset and one named "null" have the same identity. */
  lemma NullNameCollides(a: Identity)
    requires WellFormed(a)
    ensures Equals(a.(assetName := None), a.(assetName := Some("null")))
  {
  }
}
