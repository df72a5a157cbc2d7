/**
 * Per-viewer redaction of a stored proposal's boxes: the proposer's prose is always shown, an anchor only
 * when the viewer's own scope covers its document.
 */
module Redaction {
  import opened Basics
  import opened Proposals

  datatype AnchorView = AnchorView(visible: bool, docId: Option<string>, title: Option<string>,
                                   quote: Option<string>, locator: Option<string>)

  datatype BoxView = BoxView(index: nat, stage: string, title: string, description: string,
                             sourcesTotal: nat, sourcesOutside: nat, anchors: seq<AnchorView>)

  /** Document titles by id: what the service knows of the corpus when it renders. */
  type Catalogue = map<string, string>

  const WITHHELD := AnchorView(false, None, None, None, None)

  function TitleOf(docs: Catalogue, id: string): Option<string> {
    if id in docs then Some(docs[id]) else None
  }

  function AnchorShown(docs: Catalogue, scope: set<string>, a: Anchor): AnchorView {
    if a.docId in scope then AnchorView(true, Some(a.docId), TitleOf(docs, a.docId), Some(a.quote), Some(a.locator))
    else WITHHELD
  }

  function CountOutside(scope: set<string>, anchors: seq<Anchor>): nat {
    if anchors == [] then 0
    else CountOutside(scope, anchors[..|anchors| - 1]) + if anchors[|anchors| - 1].docId in scope then 0 else 1
  }

  /** A box as one viewer sees it. */
  ghost predicate ShowsBox(docs: Catalogue, scope: set<string>, b: Box, v: BoxView) {
    && v.index == b.index && v.stage == b.stage && v.title == b.title && v.description == b.description
    && v.sourcesTotal == |b.anchors| && v.sourcesOutside == CountOutside(scope, b.anchors)
    && |v.anchors| == |b.anchors|
    && (forall i :: 0 <= i < |b.anchors| ==> v.anchors[i] == AnchorShown(docs, scope, b.anchors[i]))
  }

  ghost predicate ShowsBoxes(docs: Catalogue, scope: set<string>, boxes: seq<Box>, views: seq<BoxView>) {
    |views| == |boxes| && forall i :: 0 <= i < |boxes| ==> ShowsBox(docs, scope, boxes[i], views[i])
  }

  method RedactBoxesFor(docs: Catalogue, scope: set<string>, boxes: seq<Box>) returns (out: seq<BoxView>)
    ensures ShowsBoxes(docs, scope, boxes, out)
  {
    out := [];
    for n := 0 to |boxes|
      invariant ShowsBoxes(docs, scope, boxes[..n], out)
    {
      var b := boxes[n];
      var anchors: seq<AnchorView>, outside := [], 0;
      for m := 0 to |b.anchors|
        invariant |anchors| == m && outside == CountOutside(scope, b.anchors[..m])
        invariant forall i :: 0 <= i < m ==> anchors[i] == AnchorShown(docs, scope, b.anchors[i])
      {
        var a := b.anchors[m];
        assert b.anchors[..m + 1][..m] == b.anchors[..m];
        if a.docId in scope {
          anchors := anchors
            + [AnchorView(true, Some(a.docId), TitleOf(docs, a.docId), Some(a.quote), Some(a.locator))];
        } else {
          outside := outside + 1;
          anchors := anchors + [WITHHELD];
        }
      }
      assert b.anchors[..|b.anchors|] == b.anchors;
      out := out + [BoxView(b.index, b.stage, b.title, b.description, |b.anchors|, outside, anchors)];
      assert ShowsBox(docs, scope, b, out[n]);
    }
    assert boxes[..|boxes|] == boxes;
  }

  // -------------------------------------------------------------------------
  // What a viewer can learn
  // -------------------------------------------------------------------------

  /** Two worlds (a catalogue and an anchor each) that differ only outside the viewer's scope. */
  ghost predicate SameAnchor(docs: Catalogue, docs': Catalogue, scope: set<string>, a: Anchor, a': Anchor) {
    || (a.docId !in scope && a'.docId !in scope)
    || (a == a' && TitleOf(docs, a.docId) == TitleOf(docs', a.docId))
  }

  ghost predicate SameBox(docs: Catalogue, docs': Catalogue, scope: set<string>, b: Box, b': Box) {
    && b.index == b'.index && b.stage == b'.stage && b.title == b'.title && b.description == b'.description
    && |b.anchors| == |b'.anchors|
    && forall i :: 0 <= i < |b.anchors| ==> SameAnchor(docs, docs', scope, b.anchors[i], b'.anchors[i])
  }

  ghost predicate SameToViewer(docs: Catalogue, docs': Catalogue, scope: set<string>, boxes: seq<Box>,
                               boxes': seq<Box>)
  {
    |boxes| == |boxes'|
    && forall i :: 0 <= i < |boxes| ==> SameBox(docs, docs', scope, boxes[i], boxes'[i])
  }

  lemma {:induction false} SameCount(docs: Catalogue, docs': Catalogue, scope: set<string>, a: seq<Anchor>,
                                     b: seq<Anchor>)
    requires |a| == |b|
    requires forall i :: 0 <= i < |a| ==> SameAnchor(docs, docs', scope, a[i], b[i])
    ensures CountOutside(scope, a) == CountOutside(scope, b)
  {
    if a != [] {
      var n := |a| - 1;
      assert SameAnchor(docs, docs', scope, a[n], b[n]);
      SameCount(docs, docs', scope, a[..n], b[..n]);
    }
  }

  lemma SameAnchorsShown(docs: Catalogue, docs': Catalogue, scope: set<string>, a: Anchor, a': Anchor)
    ensures AnchorShown(docs, scope, a) == AnchorShown(docs', scope, a') <==> SameAnchor(docs, docs', scope, a, a')
  {
  }

  lemma SameBoxesShown(docs: Catalogue, docs': Catalogue, scope: set<string>, b: Box, b': Box, v: BoxView, v': BoxView)
    requires ShowsBox(docs, scope, b, v) && ShowsBox(docs', scope, b', v')
    ensures v == v' <==> SameBox(docs, docs', scope, b, b')
  {
    if v == v' {
      forall i | 0 <= i < |b.anchors|
        ensures SameAnchor(docs, docs', scope, b.anchors[i], b'.anchors[i])
      {
        assert v.anchors[i] == v'.anchors[i];
      }
    }
    if SameBox(docs, docs', scope, b, b') {
      SameCount(docs, docs', scope, b.anchors, b'.anchors);
      forall i | 0 <= i < |b.anchors|
        ensures v.anchors[i] == v'.anchors[i]
      {
        SameAnchorsShown(docs, docs', scope, b.anchors[i], b'.anchors[i]);
      }
      assert v.anchors == v'.anchors;
    }
  }

  lemma {:induction false} OutsideCounted(scope: set<string>, anchors: seq<Anchor>)
    ensures CountOutside(scope, anchors) == |set i | 0 <= i < |anchors| && anchors[i].docId !in scope|
  {
    var outside := set i | 0 <= i < |anchors| && anchors[i].docId !in scope;
    if anchors != [] {
      var n := |anchors| - 1;
      OutsideCounted(scope, anchors[..n]);
      var before := set i | 0 <= i < n && anchors[..n][i].docId !in scope;
      assert outside == before + if anchors[n].docId in scope then {} else {n};
    }
  }

  /** An anchor in full, with the title the catalogue has, or nothing of it at all. */
  ghost predicate InFullOrNothing(docs: Catalogue, scope: set<string>, a: Anchor, v: AnchorView) {
    if a.docId in scope then
      && v.visible && v.docId == Some(a.docId) && v.quote == Some(a.quote) && v.locator == Some(a.locator)
      && (forall t :: v.title == Some(t) <==> (a.docId, t) in docs.Items)
    else !v.visible && v.docId.None? && v.title.None? && v.quote.None? && v.locator.None?
  }

  /** A view carries a box's own prose, each anchor in full or nothing of it, and the true counts. */
  lemma ViewsTellExactly(docs: Catalogue, scope: set<string>, boxes: seq<Box>, views: seq<BoxView>, n: nat)
    requires ShowsBoxes(docs, scope, boxes, views) && n < |boxes|
    ensures |views| == |boxes|
    ensures var b, v := boxes[n], views[n];
            && v.index == b.index && v.stage == b.stage && v.title == b.title && v.description == b.description
            && v.sourcesTotal == |b.anchors| == |v.anchors|
            && v.sourcesOutside == |set i | 0 <= i < |b.anchors| && b.anchors[i].docId !in scope|
            && forall i :: 0 <= i < |b.anchors| ==> InFullOrNothing(docs, scope, b.anchors[i], v.anchors[i])
  {
    OutsideCounted(scope, boxes[n].anchors);
    assert ShowsBox(docs, scope, boxes[n], views[n]);
  }

  /**
   * Redaction tells a viewer exactly what their scope covers: two worlds render alike if and only if they
   * differ in nothing but withheld anchors and the titles of documents the viewer cannot see.
   */
  lemma RedactionTellsOnlyTheScope(docs: Catalogue, docs': Catalogue, scope: set<string>, boxes: seq<Box>,
                                   boxes': seq<Box>, views: seq<BoxView>, views': seq<BoxView>)
    requires ShowsBoxes(docs, scope, boxes, views) && ShowsBoxes(docs', scope, boxes', views')
    ensures views == views' <==> SameToViewer(docs, docs', scope, boxes, boxes')
  {
    if |boxes| == |boxes'| {
      forall i | 0 <= i < |boxes|
        ensures views[i] == views'[i] <==> SameBox(docs, docs', scope, boxes[i], boxes'[i])
      {
        SameBoxesShown(docs, docs', scope, boxes[i], boxes'[i], views[i], views'[i]);
      }
    }
  }
}
