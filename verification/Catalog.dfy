// Assembling the legal actions from pages (completeCatalog in browser/src/controller.ts, action_page in content.rs).
module Catalog {
  import opened Basics

  datatype ActionView = ActionView(actionId: Id, definitionId: Id)

  datatype Page = Page(
    buildId: Id, stateId: Id, digest: Id, total: nat, offset: nat, next: Option<nat>, actions: seq<ActionView>)

  /** What the observed view commits to. */
  datatype Expected = Expected(buildId: Id, stateId: Id, digest: Id, total: nat)

  datatype CatalogError = InvalidCatalog | Cursor | Cycle | TotalChanged | DuplicateAction | Incomplete | RequestFailed

  /** A server may answer each request with anything, or not at all. */
  type Server = (nat, nat) -> Option<Page>

  ghost function UpTo(n: nat): (s: set<nat>)
    ensures |s| == n + 1 && forall k: nat :: k in s <==> k <= n
  {
    if n == 0 then {0} else UpTo(n - 1) + {n}
  }

  // ---- The kernel's pages ----

  /** action_page: a slice of the legal actions, and where the next one begins. */
  function ActionPage(e: Expected, legal: seq<ActionView>, offset: nat, size: nat): Option<Page> {
    if size == 0 || offset > |legal| then None
    else
      var end := Min(offset + size, |legal|);
      Some(Page(e.buildId, e.stateId, e.digest, |legal|, offset, if end < |legal| then Some(end) else None,
                legal[offset..end]))
  }

  predicate Named(a: ActionView) {
    a.actionId != "" && a.definitionId != ""
  }

  predicate DistinctActions(actions: seq<ActionView>) {
    && (forall a <- actions :: Named(a))
    && forall i, j :: 0 <= i < j < |actions| ==> actions[i].actionId != actions[j].actionId
  }

  function IdsOf(actions: seq<ActionView>): set<Id> {
    set a <- actions :: a.actionId
  }

  /** Add a page's actions; None at an unnamed or repeated one. */
  method CollectActions(collected: seq<ActionView>, page: seq<ActionView>) returns (actions: Option<seq<ActionView>>)
    requires DistinctActions(collected)
    ensures actions.Some? <==> DistinctActions(collected + page)
    ensures actions.Some? ==> actions.value == collected + page
  {
    var all := collected;
    var seen := IdsOf(collected);
    for i := 0 to |page|
      invariant all == collected + page[..i] && DistinctActions(all) && seen == IdsOf(all)
    {
      var a := page[i];
      if !Named(a) || a.actionId in seen {
        Undistinct(collected, page, i);
        return None;
      }
      assert collected + page[..i + 1] == all + [a];
      all := all + [a];
      seen := seen + {a.actionId};
    }
    assert page[..|page|] == page;
    return Some(all);
  }

  lemma Undistinct(collected: seq<ActionView>, page: seq<ActionView>, i: nat)
    requires i < |page| && (!Named(page[i]) || page[i].actionId in IdsOf(collected + page[..i]))
    ensures !DistinctActions(collected + page)
  {
    var all := collected + page;
    var at := |collected| + i;
    assert all[at] == page[i] && all[..at] == collected + page[..i];
    if page[i].actionId in IdsOf(collected + page[..i]) {
      var a :| a in all[..at] && a.actionId == page[i].actionId;
      var j :| 0 <= j < at && all[..at][j] == a;
      assert all[j].actionId == all[at].actionId;
    }
  }

  /** A page that fits the view, the cursor and everything collected so far. */
  predicate Fits(e: Expected, page: Page, offset: nat, collected: seq<ActionView>) {
    && page.buildId == e.buildId && page.stateId == e.stateId && page.digest == e.digest
    && page.total == e.total && page.offset == offset
    && DistinctActions(collected + page.actions)
  }

  /** completeCatalog: bounded requests against any server, and exactly the announced number of distinct actions. */
  method CompleteCatalog(e: Expected, first: Page, server: Server)
    returns (r: Result<seq<ActionView>, CatalogError>, requests: nat)
    ensures requests <= e.total + 1
    ensures r.Ok? ==> |r.value| == e.total && DistinctActions(r.value)
    ensures r.Ok? ==> first.actions <= r.value
    ensures forall legal, opening: nat, size: nat :: Serves(e, legal, opening, size, first, server) ==> r == Ok(legal)
  {
    var page := first;
    var seenOffsets: set<nat> := {};
    var actions: seq<ActionView> := [];
    var expected := 0;
    requests := 0;
    ghost var room := UpTo(e.total);
    while true
      invariant seenOffsets <= room && |seenOffsets| == requests <= e.total + 1 && expected <= e.total
      invariant |actions| == expected && DistinctActions(actions)
      invariant requests == 0 ==> page == first && actions == []
      invariant requests > 0 ==> first.actions <= actions
      invariant forall k <- seenOffsets :: k <= expected
      invariant expected in seenOffsets ==> requests > 0
      invariant forall legal, opening: nat, size: nat :: Serves(e, legal, opening, size, first, server) ==>
        SliceOf(e, legal, if requests == 0 then opening else size, expected, actions, page) && expected !in seenOffsets
      decreases e.total + 1 - |seenOffsets|
    {
      if page.buildId != e.buildId || page.stateId != e.stateId || page.digest != e.digest {
        return Err(InvalidCatalog), requests;
      }
      if page.offset != expected {
        return Err(Cursor), requests;
      }
      if page.offset in seenOffsets {
        return Err(Cycle), requests;
      }
      GrowsWithin(seenOffsets, room, page.offset);
      seenOffsets := seenOffsets + {page.offset};
      if page.total != e.total {
        return Err(TotalChanged), requests;
      }
      var more := CollectActions(actions, page.actions);
      SliceDistinct(e, actions, page, expected);
      if more.None? {
        return Err(DuplicateAction), requests;
      }
      actions := more.value;
      var next := expected + |page.actions|;
      if page.next.None? {
        if next != e.total || e.total != |actions| {
          return Err(Incomplete), requests;
        }
        forall legal, opening: nat, size: nat | Serves(e, legal, opening, size, first, server) ensures actions == legal {
          assert legal[..|legal|] == legal;
        }
        return Ok(actions), requests;
      }
      if page.next.value != next || next >= e.total {
        return Err(Cursor), requests;
      }
      var fetched := server(requests, next);
      requests := requests + 1;
      if fetched.None? {
        return Err(RequestFailed), requests;
      }
      expected, page := next, fetched.value;
    }
  }

  /** Every request is answered with the kernel's page of one fixed legal sequence. */
  ghost predicate Pages(e: Expected, legal: seq<ActionView>, size: nat, server: Server) {
    forall n, offset :: server(n, offset) == ActionPage(e, legal, offset, size)
  }

  /** The observed view holds the opening page, cut at its own size; every later page has the size the client asks for. */
  ghost predicate Serves(e: Expected, legal: seq<ActionView>, opening: nat, size: nat, first: Page, server: Server) {
    && opening > 0 && size > 0 && |legal| == e.total && DistinctActions(legal)
    && ActionPage(e, legal, 0, opening) == Some(first) && Pages(e, legal, size, server)
  }

  ghost predicate SliceOf(e: Expected, legal: seq<ActionView>, size: nat, offset: nat, actions: seq<ActionView>, page: Page) {
    && DistinctActions(legal) && offset <= |legal| && actions == legal[..offset]
    && ActionPage(e, legal, offset, size) == Some(page)
  }

  /** A slice of distinct actions extends the slice before it. */
  lemma SliceDistinct(e: Expected, actions: seq<ActionView>, page: Page, offset: nat)
    ensures forall legal, size | SliceOf(e, legal, size, offset, actions, page) ::
      DistinctActions(actions + page.actions) && actions + page.actions == legal[..Min(offset + size, |legal|)]
  {
    forall legal, size | SliceOf(e, legal, size, offset, actions, page)
      ensures DistinctActions(actions + page.actions) && actions + page.actions == legal[..Min(offset + size, |legal|)]
    {
      var end := Min(offset + size, |legal|);
      assert legal[..offset] + legal[offset..end] == legal[..end];
      assert forall a <- legal[..end] :: a in legal;
    }
  }

  lemma GrowsWithin(seen: set<nat>, room: set<nat>, x: nat)
    requires seen <= room && x in room && x !in seen
    ensures |seen| < |room| && seen + {x} <= room && |seen + {x}| == |seen| + 1
  {
    Smaller(seen + {x}, room);
  }

  lemma {:induction false} Smaller(s: set<nat>, t: set<nat>)
    requires s <= t
    ensures |s| <= |t|
    decreases |s|
  {
    if s != {} {
      var x :| x in s;
      Smaller(s - {x}, t - {x});
    }
  }
}
