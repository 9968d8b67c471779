/** Keyset pagination: one page, and a whole traversal while accounts are being
    created between its pages. */
module Pagination {
  import opened Text
  import opened Tables
  import RateLimiter
  import opened Interleaving
  import opened Guarantees
  import opened Histories

  predicate Increasing(ids: seq<string>) {
    forall i, j :: 0 <= i < j < |ids| ==> Less(ids[i], ids[j])
  }

  /** The keys after a cursor. */
  function After(keys: set<string>, cursor: Option<string>): set<string> {
    set k | k in keys && (cursor.Some? ==> Less(cursor.value, k))
  }

  /** `ids` are the first `n` of `keys` in order, or all of them if there are fewer. */
  predicate IsFirst(ids: seq<string>, keys: set<string>, n: nat) {
    && Increasing(ids)
    && (forall i :: 0 <= i < |ids| ==> ids[i] in keys)
    && |ids| == (if |keys| <= n then |keys| else n)
    && (forall k, i :: k in keys && k !in ids && 0 <= i < |ids| ==> Less(ids[i], k))
  }

  lemma {:induction false} IncreasingFits(ids: seq<string>, keys: set<string>)
    requires Increasing(ids) && forall i :: 0 <= i < |ids| ==> ids[i] in keys
    ensures |ids| <= |keys|
    ensures |ids| == |keys| ==> forall k :: k in keys ==> k in ids
    decreases |ids|
  {
    if ids != [] {
      var front, last := ids[..|ids| - 1], ids[|ids| - 1];
      forall i | 0 <= i < |front| ensures front[i] in keys - {last} {
        LessIsAsymmetric(front[i], last);
      }
      IncreasingFits(front, keys - {last});
      assert |keys - {last}| == |keys| - 1;
      assert forall k :: k in keys && k != last ==> k in keys - {last};
    } else if |keys| == 0 {
      assert keys == {};
    }
  }

  // A traversal

  function Cursor(page: seq<string>): Option<string> {
    if page == [] then None else Some(page[|page| - 1])
  }

  /** Page `i` was cut from the keys present then, after the cursor of page `i-1`;
      each page but possibly the last promised another one. */
  ghost predicate Traversal(keys: seq<set<string>>, pages: seq<seq<string>>, limit: nat) {
    && |keys| == |pages|
    && (forall i :: 0 <= i < |pages| ==> PageAt(keys, pages, limit, i))
    && (forall i :: 0 <= i < |pages| - 1 ==> Promises(keys, pages, limit, i))
    && (forall i, j :: 0 <= i <= j < |keys| ==> Grows(keys, i, j))
  }

  predicate PageAt(keys: seq<set<string>>, pages: seq<seq<string>>, limit: nat, i: nat)
    requires i < |keys| == |pages|
  {
    IsFirst(pages[i], Candidates(keys, pages, i), limit)
  }

  predicate Grows(keys: seq<set<string>>, i: nat, j: nat)
    requires i <= j < |keys|
  {
    keys[i] <= keys[j]
  }

  function Candidates(keys: seq<set<string>>, pages: seq<seq<string>>, i: nat): set<string>
    requires i < |keys| == |pages|
  {
    After(keys[i], if i == 0 then None else Cursor(pages[i - 1]))
  }

  /** The page has a successor: there were more keys than it holds. */
  predicate Promises(keys: seq<set<string>>, pages: seq<seq<string>>, limit: nat, i: nat)
    requires i < |keys| == |pages|
  {
    |Candidates(keys, pages, i)| > limit
  }

  function Flatten(pages: seq<seq<string>>): seq<string> {
    if pages == [] then [] else Flatten(pages[..|pages| - 1]) + pages[|pages| - 1]
  }

  /** What holds after the first `n` pages, all of which promised another. */
  ghost predicate Progress(keys: seq<set<string>>, pages: seq<seq<string>>, limit: nat, n: nat)
    requires 0 < n <= |keys| == |pages| && limit > 0
  {
    ReadSoFar(keys[0], keys[n - 1], Flatten(pages[..n]), pages[n - 1], limit)
  }

  /** `ids` have been read, `page` last, from keys that were `start` at first. */
  ghost predicate ReadSoFar(start: set<string>, now: set<string>, ids: seq<string>, page: seq<string>, limit: nat) {
    && Increasing(ids) && |page| == limit > 0 && limit <= |ids|
    && ids[|ids| - 1] == page[limit - 1]
    && (forall i :: 0 <= i < |ids| ==> ids[i] in now)
    && (forall k :: k in start ==> k in ids || Less(ids[|ids| - 1], k))
  }

  lemma JoinIncreasing(a: seq<string>, b: seq<string>)
    requires Increasing(a) && Increasing(b)
    requires a != [] ==> forall i :: 0 <= i < |b| ==> Less(a[|a| - 1], b[i])
    ensures Increasing(a + b)
  {
    forall i, j | 0 <= i < j < |a + b| ensures Less((a + b)[i], (a + b)[j]) {
      if i < |a| <= j && i != |a| - 1 {
        LessIsTransitive(a[i], a[|a| - 1], b[j - |a|]);
      }
    }
  }

  lemma {:induction false} PagesProgress(keys: seq<set<string>>, pages: seq<seq<string>>, limit: nat, n: nat)
    requires Traversal(keys, pages, limit) && limit > 0 && 0 < n <= |pages|
    requires forall i :: 0 <= i < n ==> Promises(keys, pages, limit, i)
    ensures Progress(keys, pages, limit, n)
    decreases n
  {
    assert pages[..n][..n - 1] == pages[..n - 1];
    var page := pages[n - 1];
    assert PageAt(keys, pages, limit, n - 1);
    assert Promises(keys, pages, limit, n - 1);
    if n == 1 {
      assert Flatten(pages[..1]) == page;
    } else {
      PagesProgress(keys, pages, limit, n - 1);
      NextPage(keys, pages, limit, n);
    }
  }

  /** One more page after `before`, when `start` is what there was at first. */
  lemma AppendPage(start: set<string>, before: seq<string>, now: set<string>, page: seq<string>, limit: nat)
    requires before != [] && Increasing(before) && start <= now && forall i :: 0 <= i < |before| ==> before[i] in now
    requires forall k :: k in start ==> k in before || Less(before[|before| - 1], k)
    requires IsFirst(page, After(now, Some(before[|before| - 1])), limit)
    ensures Increasing(before + page)
    ensures forall i :: 0 <= i < |before + page| ==> (before + page)[i] in now
    ensures page != [] ==> forall k :: k in start ==> k in before + page || Less(page[|page| - 1], k)
    ensures |After(now, Some(before[|before| - 1]))| <= limit ==> forall k :: k in start ==> k in before + page
  {
    var rest := After(now, Some(before[|before| - 1]));
    JoinIncreasing(before, page);
    if |rest| <= limit { IncreasingFits(page, rest); }
    forall k | k in start && k !in before ensures k in rest {
    }
  }

  lemma ReadOn(start: set<string>, earlier: set<string>, ids: seq<string>, last: seq<string>, limit: nat,
               now: set<string>, page: seq<string>)
    requires ReadSoFar(start, earlier, ids, last, limit) && start <= earlier <= now
    requires IsFirst(page, After(now, Cursor(last)), limit) && |page| == limit
    ensures ReadSoFar(start, now, ids + page, page, limit)
  {
    AppendPage(start, ids, now, page, limit);
  }

  lemma TraversalAt(keys: seq<set<string>>, pages: seq<seq<string>>, limit: nat, n: nat)
    requires Traversal(keys, pages, limit) && 1 < n <= |pages|
    ensures IsFirst(pages[n - 1], After(keys[n - 1], Cursor(pages[n - 2])), limit)
    ensures keys[0] <= keys[n - 2] <= keys[n - 1]
    ensures Flatten(pages[..n]) == Flatten(pages[..n - 1]) + pages[n - 1]
  {
    assert pages[..n][..n - 1] == pages[..n - 1];
    assert PageAt(keys, pages, limit, n - 1) && Grows(keys, n - 2, n - 1) && Grows(keys, 0, n - 2);
  }

  lemma NextPage(keys: seq<set<string>>, pages: seq<seq<string>>, limit: nat, n: nat)
    requires Traversal(keys, pages, limit) && limit > 0 && 1 < n <= |pages|
    requires Progress(keys, pages, limit, n - 1) && Promises(keys, pages, limit, n - 1)
    ensures Progress(keys, pages, limit, n)
  {
    TraversalAt(keys, pages, limit, n);
    ReadOn(keys[0], keys[n - 2], Flatten(pages[..n - 1]), pages[n - 2], limit, keys[n - 1], pages[n - 1]);
  }

  lemma {:induction false} PagesAreFull(keys: seq<set<string>>, pages: seq<seq<string>>, limit: nat, n: nat)
    requires Traversal(keys, pages, limit) && n <= |pages|
    requires forall i :: 0 <= i < n ==> Promises(keys, pages, limit, i)
    ensures |Flatten(pages[..n])| == n * limit
    decreases n
  {
    if n > 0 {
      PagesAreFull(keys, pages, limit, n - 1);
      assert pages[..n][..n - 1] == pages[..n - 1];
      assert Promises(keys, pages, limit, n - 1) && PageAt(keys, pages, limit, n - 1);
    }
  }

  /** A traversal read to its end. */
  ghost predicate Complete(keys: seq<set<string>>, pages: seq<seq<string>>, limit: nat) {
    pages != [] && Traversal(keys, pages, limit) && !Promises(keys, pages, limit, |pages| - 1)
  }

  /** The ids of a complete traversal come out once each, in order, and include
      every account that was there when it began, whatever was created meanwhile. */
  lemma TraversalIsComplete(keys: seq<set<string>>, pages: seq<seq<string>>, limit: nat)
    requires Complete(keys, pages, limit) && limit > 0
    ensures Increasing(Flatten(pages))
    ensures forall k :: k in keys[0] ==> k in Flatten(pages)
    ensures forall i :: 0 <= i < |Flatten(pages)| ==> Flatten(pages)[i] in keys[|keys| - 1]
  {
    var n := |pages| - 1;
    var page := pages[n];
    var candidates := Candidates(keys, pages, n);
    assert PageAt(keys, pages, limit, n);
    IncreasingFits(page, candidates);
    if n == 0 {
      assert pages[..0] == [] && Flatten(pages) == page;
    } else {
      PagesProgress(keys, pages, limit, n);
      var before := Flatten(pages[..n]);
      assert Grows(keys, n - 1, n) && Grows(keys, 0, n);
      AppendPage(keys[0], before, keys[n], page, limit);
      assert Flatten(pages) == before + page;
    }
  }

  /** A traversal ends within as many pages as the organization can fill. */
  lemma TraversalIsShort(keys: seq<set<string>>, pages: seq<seq<string>>, limit: nat, max: nat)
    requires Traversal(keys, pages, limit) && limit > 0 && max > 0
    requires forall i :: 0 <= i < |keys| ==> |keys[i]| <= max
    ensures (|pages| - 1) * limit < max
  {
    var n := |pages| - 1;
    if n > 0 {
      PagesProgress(keys, pages, limit, n);
      PagesAreFull(keys, pages, limit, n);
      var ids := Flatten(pages[..n]);
      assert Promises(keys, pages, limit, n - 1);
      IncreasingFits(ids, keys[n - 1]);
      var candidates, page := Candidates(keys, pages, n - 1), pages[n - 1];
      assert PageAt(keys, pages, limit, n - 1);
      if forall k :: k in keys[n - 1] ==> k in ids {
        forall k | k in candidates ensures k in page {
          KeyAfterCursorIsOnPage(keys, pages, limit, n, k);
        }
        AllOnPage(page, candidates);
      }
    }
  }

  lemma NothingAfterTheLast(ids: seq<string>, k: string)
    requires Increasing(ids) && k in ids
    ensures !Less(ids[|ids| - 1], k)
  {
    var i :| 0 <= i < |ids| && ids[i] == k;
    if Less(ids[|ids| - 1], k) {
      LessIsAsymmetric(ids[|ids| - 1], k);
    }
  }

  lemma KeyAfterCursorIsOnPage(keys: seq<set<string>>, pages: seq<seq<string>>, limit: nat, n: nat, k: string)
    requires Traversal(keys, pages, limit) && limit > 0 && 0 < n < |pages|
    requires k in Candidates(keys, pages, n - 1) && k in Flatten(pages[..n])
    ensures k in pages[n - 1]
  {
    assert pages[..n][..n - 1] == pages[..n - 1];
    if n > 1 {
      PagesProgress(keys, pages, limit, n - 1);
      var before := Flatten(pages[..n - 1]);
      if k in before { NothingAfterTheLast(before, k); }
    }
  }

  lemma AllOnPage(page: seq<string>, keys: set<string>)
    requires forall k :: k in keys ==> k in page
    ensures |keys| <= |page|
    decreases |page|
  {
    if page != [] {
      AllOnPage(page[1..], keys - {page[0]});
    } else {
      assert keys == {};
    }
  }

  // Traversals of the real tables

  /** The account ids of an organization at increasing points of a history. */
  function Snapshots(h: seq<Entry>, times: seq<nat>, organization: string): seq<set<string>>
    requires forall i :: 0 <= i < |times| ==> times[i] <= |h|
  {
    seq(|times|, i requires 0 <= i < |times| => AccountsOf(At(h, times[i]), organization))
  }

  lemma SnapshotsGrow(cfg: Limits, h: seq<Entry>, times: seq<nat>, organization: string)
    requires Possible(cfg, h)
    requires forall i :: 0 <= i < |times| ==> times[i] <= |h|
    requires forall i, j :: 0 <= i <= j < |times| ==> times[i] <= times[j]
    ensures var keys := Snapshots(h, times, organization);
            && (forall i, j :: 0 <= i <= j < |keys| ==> Grows(keys, i, j))
            && (forall i :: 0 <= i < |keys| ==> |keys[i]| <= cfg.maxAccounts)
  {
    var keys := Snapshots(h, times, organization);
    forall i, j | 0 <= i <= j < |keys| ensures Grows(keys, i, j) {
      HistoryMovesForward(cfg, h, times[i], times[j]);
      AccountsStay(At(h, times[i]), At(h, times[j]), organization);
    }
    forall i | 0 <= i < |keys| ensures |keys[i]| <= cfg.maxAccounts {
      TablesAt(cfg, h, times[i]);
    }
  }

  lemma AccountsStay(db: Db, t: Db, organization: string)
    requires Later(db, t)
    ensures AccountsOf(db, organization) <= AccountsOf(t, organization)
  {
    forall x | x in AccountsOf(db, organization) ensures x in AccountsOf(t, organization) {
      assert AccountLater(db.accounts[x], t.accounts[x]);
    }
  }

  lemma CeilingOf(keys: seq<set<string>>, pages: seq<seq<string>>, limit: nat, max: nat)
    requires Traversal(keys, pages, limit) && limit > 0 && max > 0
    requires forall i :: 0 <= i < |keys| ==> |keys[i]| <= max
    ensures |pages| <= (max + limit - 1) / limit
  {
    TraversalIsShort(keys, pages, limit, max);
    RoundUp(|pages|, limit, max);
  }

  /** Pages listed at these points of a history, each after the previous cursor. */
  ghost predicate Listing(h: seq<Entry>, times: seq<nat>, organization: string, pages: seq<seq<string>>, limit: nat) {
    && |pages| == |times|
    && (forall i :: 0 <= i < |times| ==> times[i] <= |h|)
    && (forall i, j :: 0 <= i <= j < |times| ==> times[i] <= times[j])
    && (var keys := Snapshots(h, times, organization);
        && (forall i :: 0 <= i < |pages| ==> PageAt(keys, pages, limit, i))
        && (forall i :: 0 <= i < |pages| - 1 ==> Promises(keys, pages, limit, i)))
  }

  lemma ListingIsTraversal(cfg: Limits, h: seq<Entry>, times: seq<nat>, organization: string, pages: seq<seq<string>>, limit: nat)
    requires Possible(cfg, h) && Listing(h, times, organization, pages, limit)
    ensures var keys := Snapshots(h, times, organization);
            Traversal(keys, pages, limit) && forall i :: 0 <= i < |keys| ==> |keys[i]| <= cfg.maxAccounts
  {
    SnapshotsGrow(cfg, h, times, organization);
  }

  /** Everything there at the start is read, once, in order. */
  ghost predicate ReadsAll(keys: seq<set<string>>, pages: seq<seq<string>>) {
    keys != [] && Increasing(Flatten(pages)) && forall k :: k in keys[0] ==> k in Flatten(pages)
  }

  /** Listing an organization page by page while anything else happens: complete,
      in order, without duplicates, and within ceil(max accounts / limit) pages. */
  lemma KeysetTraversal(cfg: Limits, h: seq<Entry>, times: seq<nat>, organization: string, pages: seq<seq<string>>, limit: nat)
    requires Possible(cfg, h) && 0 < limit && Listing(h, times, organization, pages, limit)
    ensures |pages| <= (cfg.maxAccounts + limit - 1) / limit
    ensures var keys := Snapshots(h, times, organization); Complete(keys, pages, limit) ==> ReadsAll(keys, pages)
  {
    ListingIsTraversal(cfg, h, times, organization, pages, limit);
    var keys := Snapshots(h, times, organization);
    CeilingOf(keys, pages, limit, cfg.maxAccounts);
    if Complete(keys, pages, limit) { TraversalIsComplete(keys, pages, limit); }
  }

  lemma RoundUp(n: nat, limit: nat, max: nat)
    requires limit > 0 && (n - 1) * limit < max
    ensures n <= (max + limit - 1) / limit
  {
    var q := (max + limit - 1) / limit;
    assert max + limit - 1 < limit * (q + 1);
    if n >= q + 1 {
      RateLimiter.Product(limit, q + 1, n);
    }
  }
}
