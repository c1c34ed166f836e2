/** Reading every page of a GitHub connection, with a guard against cursors that repeat. */
module Pagination {
  import opened Text

  datatype Page<+N> = Page(nodes: seq<N>, next: Option<string>)

  /** The whole connection, a repeated cursor, or a page that could not be read. */
  datatype Reading<+N> = Complete(nodes: seq<N>) | Repeated | Failed

  /** The cursors cs are followed in order, from the first page on; each but the last has been read. */
  ghost predicate Follows<N>(first: Page<N>, pages: map<string, Page<N>>, cs: seq<string>) {
    && (cs != [] ==> first.next == Some(cs[0]))
    && forall i, j :: 0 <= i < |cs| && j == i + 1 && j < |cs| ==> Links(pages, cs[i], cs[j])
  }

  /** The page at one cursor names the other as the next. */
  predicate Links<N>(pages: map<string, Page<N>>, c: string, d: string) {
    c in pages && pages[c].next == Some(d)
  }

  /** The cursor that comes after the chain, if any. */
  function Upcoming<N>(first: Page<N>, pages: map<string, Page<N>>, cs: seq<string>): Option<string>
    requires forall c :: c in cs ==> c in pages
  {
    if cs == [] then first.next else pages[cs[|cs| - 1]].next
  }

  /** What the loops keep: the chain has been read in full, without repetition. */
  ghost predicate Tracks<N>(first: Page<N>, pages: map<string, Page<N>>, cs: seq<string>, seen: set<string>) {
    && Follows(first, pages, cs) && Distinct(cs)
    && (forall c :: c in cs <==> c in seen)
    && (forall c :: c in cs ==> c in pages)
  }

  lemma TracksNext<N>(first: Page<N>, pages: map<string, Page<N>>, cs: seq<string>, seen: set<string>, c: string)
    requires Tracks(first, pages, cs, seen) && Upcoming(first, pages, cs) == Some(c)
    ensures Follows(first, pages, cs + [c])
    ensures c in seen ==> Justified(first, pages, cs + [c], Repeated)
    ensures c !in seen && c !in pages ==> Justified(first, pages, cs + [c], Failed)
    ensures c !in seen && c in pages ==>
              && Tracks(first, pages, cs + [c], seen + {c})
              && pages.Keys - (seen + {c}) < pages.Keys - seen
              && Nodes(pages, cs + [c]) == Nodes(pages, cs) + pages[c].nodes
  {
    var longer := cs + [c];
    assert longer[..|cs|] == cs;
    forall i, j | 0 <= i < |longer| && j == i + 1 && j < |longer|
      ensures Links(pages, longer[i], longer[j])
    {
      assert j < |cs| ==> Links(pages, cs[i], cs[j]);
    }
    if c !in seen && c in pages {
      assert c in pages.Keys - seen;
    }
  }

  function Nodes<N>(pages: map<string, Page<N>>, cs: seq<string>): seq<N> {
    if cs == [] then []
    else
      var last := cs[|cs| - 1];
      Nodes(pages, cs[..|cs| - 1]) + if last in pages then pages[last].nodes else []
  }

  /** The nodes stand in the order in which the pages were followed. */
  lemma {:induction false} NodesFromFront<N>(pages: map<string, Page<N>>, c: string, cs: seq<string>)
    ensures Nodes(pages, [c] + cs) == (if c in pages then pages[c].nodes else []) + Nodes(pages, cs)
  {
    var all := [c] + cs;
    if cs == [] {
      assert all[..|all| - 1] == [];
    } else {
      var last := |cs| - 1;
      NodesFromFront(pages, c, cs[..last]);
      assert all[..|all| - 1] == [c] + cs[..last];
    }
  }

  /** The chain ends: every cursor was read once, and the last page names no other. */
  ghost predicate Ends<N>(first: Page<N>, pages: map<string, Page<N>>, cs: seq<string>) {
    && Follows(first, pages, cs) && Distinct(cs)
    && (forall c :: c in cs ==> c in pages)
    && (if cs == [] then first.next == None else pages[cs[|cs| - 1]].next == None)
  }

  /** The chain comes back to a cursor that was already followed. */
  ghost predicate Revisits<N>(first: Page<N>, pages: map<string, Page<N>>, cs: seq<string>) {
    && cs != [] && Follows(first, pages, cs)
    && Distinct(cs[..|cs| - 1]) && cs[|cs| - 1] in cs[..|cs| - 1]
  }

  /** The chain reaches a cursor whose page cannot be read. */
  ghost predicate Breaks<N>(first: Page<N>, pages: map<string, Page<N>>, cs: seq<string>) {
    cs != [] && Follows(first, pages, cs) && Distinct(cs) && cs[|cs| - 1] !in pages
  }

  /** What a reading must be for the chain it followed. */
  ghost predicate Justified<N>(first: Page<N>, pages: map<string, Page<N>>, cs: seq<string>, r: Reading<N>) {
    match r
    case Complete(nodes) => Ends(first, pages, cs) && nodes == first.nodes + Nodes(pages, cs)
    case Repeated => Revisits(first, pages, cs)
    case Failed => Breaks(first, pages, cs)
  }

  /** Follow the cursors of one native relation, whose first page came with its parent. */
  method Relation<N>(first: Page<N>, pages: map<string, Page<N>>) returns (r: Reading<N>)
    ensures exists cs :: Justified(first, pages, cs, r)
  {
    hide Follows, Distinct;
    var nodes, cursor := first.nodes, first.next;
    var seen: set<string> := {};
    ghost var cs: seq<string> := [];
    StartsTracked(first, pages);
    while cursor.Some?
      invariant Tracks(first, pages, cs, seen)
      invariant cursor == Upcoming(first, pages, cs)
      invariant nodes == first.nodes + Nodes(pages, cs)
      decreases pages.Keys - seen
    {
      var c := cursor.value;
      TracksNext(first, pages, cs, seen, c);
      if c in seen {
        return Repeated;
      }
      if c !in pages {
        return Failed;
      }
      seen, cs := seen + {c}, cs + [c];
      nodes, cursor := nodes + pages[c].nodes, pages[c].next;
    }
    assert Justified(first, pages, cs, Complete(nodes));
    return Complete(nodes);
  }

  /** Read the milestone's issues, or the open pull requests: each page is consumed before its cursor is checked. */
  method Connection<N>(first: Page<N>, pages: map<string, Page<N>>) returns (r: Reading<N>)
    ensures exists cs :: Justified(first, pages, cs, r)
  {
    hide Follows, Distinct;
    var nodes: seq<N>, seen: set<string>, page := [], {}, first;
    ghost var cs: seq<string> := [];
    StartsTracked(first, pages);
    while true
      invariant Tracks(first, pages, cs, seen)
      invariant page.next == Upcoming(first, pages, cs)
      invariant nodes + page.nodes == first.nodes + Nodes(pages, cs)
      decreases pages.Keys - seen
    {
      nodes := nodes + page.nodes;
      if page.next == None {
        assert Justified(first, pages, cs, Complete(nodes));
        return Complete(nodes);
      }
      var c := page.next.value;
      TracksNext(first, pages, cs, seen, c);
      if c in seen {
        return Repeated;
      }
      if c !in pages {
        return Failed;
      }
      seen, cs := seen + {c}, cs + [c];
      page := pages[c];
    }
  }

  lemma StartsTracked<N>(first: Page<N>, pages: map<string, Page<N>>)
    ensures Tracks(first, pages, [], {}) && Nodes(pages, []) == []
  {
  }

  /** Of two chains of cursors, one begins with the other. */
  lemma {:induction false} ChainsAgree<N>(first: Page<N>, pages: map<string, Page<N>>, cs: seq<string>,
                                          ds: seq<string>, n: nat)
    requires Follows(first, pages, cs) && Follows(first, pages, ds) && n <= |cs| && n <= |ds|
    ensures cs[..n] == ds[..n]
  {
    if n > 0 {
      ChainsAgree(first, pages, cs, ds, n - 1);
      assert n > 1 ==> Links(pages, cs[n - 2], cs[n - 1]) && Links(pages, ds[n - 2], ds[n - 1]);
      assert n > 1 ==> cs[n - 2] == cs[..n - 1][n - 2] == ds[..n - 1][n - 2] == ds[n - 2];
      assert cs[..n] == cs[..n - 1] + [cs[n - 1]] && ds[..n] == ds[..n - 1] + [ds[n - 1]];
    }
  }

  /** A connection has only one justified reading, so a reading fails exactly when its chain does. */
  lemma ReadingIsUnique<N>(first: Page<N>, pages: map<string, Page<N>>, cs: seq<string>, r: Reading<N>,
                           ds: seq<string>, q: Reading<N>)
    requires Justified(first, pages, cs, r) && Justified(first, pages, ds, q)
    ensures r == q
  {
    if |cs| <= |ds| {
      ShorterDecides(first, pages, cs, r, ds, q);
    } else {
      ShorterDecides(first, pages, ds, q, cs, r);
    }
  }

  lemma ShorterDecides<N>(first: Page<N>, pages: map<string, Page<N>>, cs: seq<string>, r: Reading<N>,
                          ds: seq<string>, q: Reading<N>)
    requires Justified(first, pages, cs, r) && Justified(first, pages, ds, q) && |cs| <= |ds|
    ensures r == q
  {
    var n := |cs|;
    assert 0 < n < |ds| ==> Links(pages, ds[n - 1], ds[n]);
    ChainsAgree(first, pages, cs, ds, n);
    assert cs[..n] == cs && ds[..n] == cs;
    if n == |ds| {
      assert ds == cs;
    } else {
      assert false;
    }
  }
}
