/**
 * The parsed HTML document as the page loader sees it through cheerio: a sequence of elements in
 * document order, each with its tag name and its attributes. `$('tag').each(...)` visits the
 * elements with that tag in order; `$el.attr(name)` reads an attribute (undefined when absent)
 * and `$el.attr(name, v)` overwrites it in place.
 *
 * A "hit" of one scanning pass is an element with the pass's tag whose attribute is truthy
 * (present and non-empty) and accepted by the pass's filter; the pass records a value made from
 * the attribute and rewrites the attribute with a transform.
 */
module Dom {
  import opened Wrappers

  datatype Element = Element(tag: string, attrs: map<string, string>)

  /** `$el.attr(name)`: undefined exactly when the element has no such attribute, else its value. */
  function Attr(e: Element, name: string): (r: Option<string>)
    ensures r.None? <==> name !in e.attrs
    ensures r.Some? ==> r.value == e.attrs[name]
  {
    if name in e.attrs then Some(e.attrs[name]) else None
  }

  /** `$el.attr(name, value)`: sets one attribute and leaves the tag and every other attribute alone. */
  function SetAttr(e: Element, name: string, value: string): (r: Element)
    ensures r.tag == e.tag && Attr(r, name) == Some(value)
    ensures forall other :: other != name ==> Attr(r, other) == Attr(e, other)
  {
    e.(attrs := e.attrs[name := value])
  }

  /** The guard `if (v && keep(v))` of a pass over the `tag` elements reading attribute `name`. */
  predicate IsHit(e: Element, tag: string, name: string, keep: string -> bool) {
    e.tag == tag && name in e.attrs && e.attrs[name] != "" && keep(e.attrs[name])
  }

  /** What one pass does to one element: a hit gets `transform` of its value, anything else is kept. */
  function Rewritten(e: Element, tag: string, name: string, keep: string -> bool, transform: string -> string): (r: Element)
    ensures r.tag == e.tag
    ensures IsHit(e, tag, name, keep) ==> Attr(r, name) == Some(transform(e.attrs[name]))
    ensures IsHit(e, tag, name, keep) ==> forall other :: other != name ==> Attr(r, other) == Attr(e, other)
    ensures !IsHit(e, tag, name, keep) ==> r == e
  {
    if IsHit(e, tag, name, keep) then SetAttr(e, name, transform(e.attrs[name])) else e
  }

  /** The values one pass records, `mk(value)` per hit, in document order. */
  function Hits<T>(d: seq<Element>, tag: string, name: string, keep: string -> bool, mk: string -> T): (r: seq<T>)
  {
    if d == [] then []
    else
      var e := d[|d| - 1];
      Hits(d[..|d| - 1], tag, name, keep, mk) + if IsHit(e, tag, name, keep) then [mk(e.attrs[name])] else []
  }

  /** A pass over a document without hits records nothing. */
  lemma {:induction false} NoHits<T>(d: seq<Element>, tag: string, name: string, keep: string -> bool, mk: string -> T)
    requires forall k :: 0 <= k < |d| ==> !IsHit(d[k], tag, name, keep)
    ensures Hits(d, tag, name, keep, mk) == []
  {
    if d != [] {
      NoHits(d[..|d| - 1], tag, name, keep, mk);
    }
  }

  /**
   * The positions of one pass's hits: strictly increasing, every position a hit, and every hit
   * listed.
   */
  function HitIndices(d: seq<Element>, tag: string, name: string, keep: string -> bool): (idx: seq<nat>)
    ensures forall j :: 0 <= j < |idx| ==> idx[j] < |d| && IsHit(d[idx[j]], tag, name, keep)
    ensures forall j, j' :: 0 <= j < j' < |idx| ==> idx[j] < idx[j']
    ensures forall k {:trigger IsHit(d[k], tag, name, keep)} :: 0 <= k < |d| && IsHit(d[k], tag, name, keep) ==> k in idx
  {
    if d == [] then []
    else
      var n := |d| - 1;
      var front := HitIndices(d[..n], tag, name, keep);
      assert forall k :: 0 <= k < n ==> d[..n][k] == d[k];
      front + if IsHit(d[n], tag, name, keep) then [n] else []
  }

  /** The j-th recorded value is made from the attribute of the j-th hit position. */
  lemma {:induction false} HitsAtHitIndices<T>(d: seq<Element>, tag: string, name: string, keep: string -> bool, mk: string -> T)
    ensures var idx := HitIndices(d, tag, name, keep);
      |Hits(d, tag, name, keep, mk)| == |idx| &&
      forall j :: 0 <= j < |idx| ==> Hits(d, tag, name, keep, mk)[j] == mk(d[idx[j]].attrs[name])
  {
    if d != [] {
      var n := |d| - 1;
      HitsAtHitIndices(d[..n], tag, name, keep, mk);
      assert forall k :: 0 <= k < n ==> d[..n][k] == d[k];
    }
  }

  /** The positions of three passes' hits, in pass order. */
  function Concat3Indices(d: seq<Element>, keep: string -> bool, t1: string, n1: string,
                          t2: string, n2: string, t3: string, n3: string): seq<nat> {
    HitIndices(d, t1, n1, keep) + HitIndices(d, t2, n2, keep) + HitIndices(d, t3, n3, keep)
  }

  /**
   * Three passes' results concatenated: entry `j` is made from the hit at position `idx[j]` by
   * the pass that found it.
   */
  lemma ThreePassEntries<T>(d: seq<Element>, keep: string -> bool,
                            t1: string, n1: string, m1: string -> T,
                            t2: string, n2: string, m2: string -> T,
                            t3: string, n3: string, m3: string -> T)
    ensures var res := Hits(d, t1, n1, keep, m1) + Hits(d, t2, n2, keep, m2) + Hits(d, t3, n3, keep, m3);
      var idx := Concat3Indices(d, keep, t1, n1, t2, n2, t3, n3);
      |idx| == |res| &&
      forall j :: 0 <= j < |idx| ==>
        idx[j] < |d| &&
        ((IsHit(d[idx[j]], t1, n1, keep) && res[j] == m1(d[idx[j]].attrs[n1])) ||
         (IsHit(d[idx[j]], t2, n2, keep) && res[j] == m2(d[idx[j]].attrs[n2])) ||
         (IsHit(d[idx[j]], t3, n3, keep) && res[j] == m3(d[idx[j]].attrs[n3])))
  {
    HitsAtHitIndices(d, t1, n1, keep, m1);
    HitsAtHitIndices(d, t2, n2, keep, m2);
    HitsAtHitIndices(d, t3, n3, keep, m3);
    var a, b, c := HitIndices(d, t1, n1, keep), HitIndices(d, t2, n2, keep), HitIndices(d, t3, n3, keep);
    var ha, hb, hc := Hits(d, t1, n1, keep, m1), Hits(d, t2, n2, keep, m2), Hits(d, t3, n3, keep, m3);
    var res, idx := ha + hb + hc, a + b + c;
    forall j | 0 <= j < |idx|
      ensures idx[j] < |d| &&
        ((IsHit(d[idx[j]], t1, n1, keep) && res[j] == m1(d[idx[j]].attrs[n1])) ||
         (IsHit(d[idx[j]], t2, n2, keep) && res[j] == m2(d[idx[j]].attrs[n2])) ||
         (IsHit(d[idx[j]], t3, n3, keep) && res[j] == m3(d[idx[j]].attrs[n3])))
    {
      if j < |a| {
        assert idx[j] == a[j] && res[j] == ha[j];
      } else if j < |a| + |b| {
        assert idx[j] == b[j - |a|] && res[j] == hb[j - |a|];
      } else {
        assert idx[j] == c[j - |a| - |b|] && res[j] == hc[j - |a| - |b|];
      }
    }
  }

  /**
   * Element `p` is handled before element `q` by passes over `t1`, then `t2`, then `t3`: by an
   * earlier pass, or by the same pass and earlier in the document.
   */
  predicate InPassOrder(d: seq<Element>, p: nat, q: nat, t1: string, t2: string, t3: string)
    requires p < |d| && q < |d|
  {
    (d[p].tag == d[q].tag && p < q) || (d[p].tag == t1 && d[q].tag != t1) || (d[p].tag == t2 && d[q].tag == t3)
  }

  /**
   * Three passes over distinct tags, in pass order: the first pass's hits precede the second's
   * precede the third's, each pass's hits are in document order, and every hit of every pass is
   * listed.
   */
  lemma ThreePassOrder(d: seq<Element>, keep: string -> bool,
                       t1: string, n1: string, t2: string, n2: string, t3: string, n3: string)
    requires t1 != t2 && t2 != t3 && t1 != t3
    ensures var idx := Concat3Indices(d, keep, t1, n1, t2, n2, t3, n3);
      (forall j, j' :: 0 <= j < j' < |idx| ==>
        idx[j] < |d| && idx[j'] < |d| && InPassOrder(d, idx[j], idx[j'], t1, t2, t3)) &&
      (forall k :: 0 <= k < |d| && (IsHit(d[k], t1, n1, keep) || IsHit(d[k], t2, n2, keep) || IsHit(d[k], t3, n3, keep))
        ==> k in idx)
  {
    var a, b, c := HitIndices(d, t1, n1, keep), HitIndices(d, t2, n2, keep), HitIndices(d, t3, n3, keep);
    assert Tagged(d, a, t1) && Tagged(d, b, t2) && Tagged(d, c, t3);
    assert Increasing(a) && Increasing(b) && Increasing(c);
    var idx := a + b + c;
    forall j, j' | 0 <= j < j' < |idx|
      ensures idx[j] < |d| && idx[j'] < |d| && InPassOrder(d, idx[j], idx[j'], t1, t2, t3)
    {
      ConcatOrder(d, a, b, c, t1, t2, t3, j, j');
    }
  }

  /** Every position in `s` is an element of `d` with tag `t`. */
  predicate Tagged(d: seq<Element>, s: seq<nat>, t: string) {
    forall j :: 0 <= j < |s| ==> s[j] < |d| && d[s[j]].tag == t
  }

  /** The positions in `s` strictly increase. */
  predicate Increasing(s: seq<nat>) {
    forall j, j' :: 0 <= j < j' < |s| ==> s[j] < s[j']
  }

  /** Increasing positions of `t1`, then of `t2`, then of `t3` elements, concatenated, are in pass order. */
  lemma ConcatOrder(d: seq<Element>, a: seq<nat>, b: seq<nat>, c: seq<nat>, t1: string, t2: string, t3: string, j: nat, j': nat)
    requires t1 != t2 && t2 != t3 && t1 != t3
    requires Tagged(d, a, t1) && Tagged(d, b, t2) && Tagged(d, c, t3)
    requires Increasing(a) && Increasing(b) && Increasing(c)
    requires j < j' < |a + b + c|
    ensures var idx := a + b + c;
      idx[j] < |d| && idx[j'] < |d| && InPassOrder(d, idx[j], idx[j'], t1, t2, t3)
  {
    var idx := a + b + c;
    if j' < |a| {
      assert idx[j] == a[j] && idx[j'] == a[j'];
    } else if j' < |a| + |b| {
      var y := j' - |a|;
      assert idx[j'] == b[y];
      if j < |a| {
        assert idx[j] == a[j];
      } else {
        assert idx[j] == b[j - |a|];
      }
    } else {
      var y := j' - |a| - |b|;
      assert idx[j'] == c[y];
      if j < |a| {
        assert idx[j] == a[j];
      } else if j < |a| + |b| {
        assert idx[j] == b[j - |a|];
      } else {
        assert idx[j] == c[j - |a| - |b|];
      }
    }
  }

  /** A pass over every element: the document after `$('tag').each(...)`. */
  function RewriteAll(d: seq<Element>, tag: string, name: string, keep: string -> bool, transform: string -> string): (r: seq<Element>)
    ensures |r| == |d|
    ensures forall k :: 0 <= k < |d| ==> r[k] == Rewritten(d[k], tag, name, keep, transform)
  {
    seq(|d|, k requires 0 <= k < |d| => Rewritten(d[k], tag, name, keep, transform))
  }

  /** A pass over elements of another tag neither finds nor changes anything of this tag. */
  lemma {:induction false} HitsAfterOtherPass<T>(d: seq<Element>, tag: string, name: string, other: string,
                                                 otherName: string, keep: string -> bool,
                                                 transform: string -> string, mk: string -> T)
    requires other != tag
    ensures Hits(RewriteAll(d, other, otherName, keep, transform), tag, name, keep, mk) == Hits(d, tag, name, keep, mk)
  {
    if d != [] {
      var n := |d| - 1;
      var r := RewriteAll(d, other, otherName, keep, transform);
      assert r[..n] == RewriteAll(d[..n], other, otherName, keep, transform);
      HitsAfterOtherPass(d[..n], tag, name, other, otherName, keep, transform, mk);
    }
  }

  /** Extending the scanned prefix by one element extends the recorded values by that element's value, if it is a hit. */
  lemma HitsStep<T>(d: seq<Element>, i: nat, tag: string, name: string, keep: string -> bool, mk: string -> T)
    requires i < |d|
    ensures Hits(d[..i + 1], tag, name, keep, mk) ==
      Hits(d[..i], tag, name, keep, mk) + if IsHit(d[i], tag, name, keep) then [mk(d[i].attrs[name])] else []
  {
    assert d[..i + 1][..i] == d[..i];
  }

  /**
   * One `$(tag).each(...)` pass, in place: every element with this tag whose attribute `name` is
   * non-empty and passes `keep` gets `transform` of its value, and `mk` of each such value is
   * returned in document order.
   */
  method Pass<T>(doc: array<Element>, tag: string, name: string, keep: string -> bool,
                 transform: string -> string, mk: string -> T) returns (found: seq<T>)
    modifies doc
    ensures found == Hits(old(doc[..]), tag, name, keep, mk)
    ensures doc[..] == RewriteAll(old(doc[..]), tag, name, keep, transform)
  {
    ghost var d0 := doc[..];
    found := [];
    var i := 0;
    while i < doc.Length
      invariant 0 <= i <= doc.Length
      invariant forall k :: 0 <= k < i ==> doc[k] == Rewritten(d0[k], tag, name, keep, transform)
      invariant forall k :: i <= k < doc.Length ==> doc[k] == d0[k]
      invariant found == Hits(d0[..i], tag, name, keep, mk)
    {
      var e := doc[i];
      HitsStep(d0, i, tag, name, keep, mk);
      if IsHit(e, tag, name, keep) {
        var value := e.attrs[name];
        found := found + [mk(value)];
        doc[i] := SetAttr(e, name, transform(value));
      }
      i := i + 1;
    }
    assert d0[..doc.Length] == d0;
  }
}
