/** Finding the keys under an S3 prefix: a paginated listing held to two budgets. */
module S3Listing {
  import opened Documents
  import opened Wrappers

  const MOST_LIST_PAGES: nat := 32

  /** One page: an entry may name no key, and a page that names no next token is the last. */
  datatype PageReply = Page(keys: seq<Option<string>>, next: Option<string>) | PageFailed

  datatype ListError = StoreFailed | NotUnderPrefix | OverBudget | NeverFinished

  predicate IsFolder(key: string) {
    key != "" && key[|key| - 1] == '/'
  }

  /** The keys of a page that are documents, in the order they were listed. */
  function Kept(keys: seq<Option<string>>): (r: seq<string>) {
    if keys == [] then
      []
    else
      var last := keys[|keys| - 1];
      Kept(keys[..|keys| - 1]) + (if last.Some? && !IsFolder(last.value) then [last.value] else [])
  }

  function Listing(pages: seq<PageReply>, n: nat): (r: seq<string>)
    requires n <= |pages|
  {
    if n == 0 then []
    else Listing(pages, n - 1) + (if pages[n - 1].Page? then Kept(pages[n - 1].keys) else [])
  }

  predicate AllUnder(prefix: string, keys: seq<Option<string>>) {
    forall i :: 0 <= i < |keys| && keys[i].Some? ==> UnderPrefix(keys[i].value, prefix)
  }

  /** Page `n` is the first to name no next token. */
  predicate FinishesAt(pages: seq<PageReply>, n: nat) {
    && 0 < n <= |pages|
    && (forall i :: 0 <= i < n ==> pages[i].Page? && (pages[i].next.None? <==> i == n - 1))
  }

  /** A listing that can be answered: it finishes in time, stays under the prefix, and fits the budget. */
  predicate Listable(prefix: string, pages: seq<PageReply>, n: nat) {
    && n <= 32
    && FinishesAt(pages, n)
    && (forall i :: 0 <= i < n ==> AllUnder(prefix, pages[i].keys))
    && WithinKeyBudget(|Listing(pages, n)|)
  }

  ghost predicate CanList(prefix: string, pages: seq<PageReply>) {
    exists n: nat :: Listable(prefix, pages, n)
  }

  lemma {:induction false} ListingGrows(pages: seq<PageReply>, i: nat, n: nat)
    requires i <= n <= |pages|
    ensures |Listing(pages, i)| <= |Listing(pages, n)|
  {
    if i < n { ListingGrows(pages, i, n - 1); }
  }

  /** The first `n` pages answered, and each named a next token. */
  predicate Unfinished(pages: seq<PageReply>, n: nat) {
    n <= |pages| && forall i :: 0 <= i < n ==> pages[i].Page? && pages[i].next.Some?
  }

  lemma FinishIsLater(pages: seq<PageReply>, i: nat, n: nat)
    requires Unfinished(pages, i) && FinishesAt(pages, n)
    ensures i < n <= |pages| && pages[i].Page?
  {
    assert pages[n - 1].next.None?;
  }

  lemma FailedPageRefuses(prefix: string, pages: seq<PageReply>, i: nat)
    requires Unfinished(pages, i)
    requires i == |pages| || pages[i].PageFailed? || i == MOST_LIST_PAGES
    ensures !CanList(prefix, pages)
  {
    forall n: nat ensures !Listable(prefix, pages, n) {
      if Listable(prefix, pages, n) { FinishIsLater(pages, i, n); }
    }
  }

  lemma TakenPageRefuses(prefix: string, pages: seq<PageReply>, i: nat)
    requires Unfinished(pages, i) && i < |pages| && pages[i].Page?
    requires !AllUnder(prefix, pages[i].keys) || !WithinKeyBudget(|Listing(pages, i + 1)|)
    ensures !CanList(prefix, pages)
  {
    forall n: nat ensures !Listable(prefix, pages, n) {
      if Listable(prefix, pages, n) {
        FinishIsLater(pages, i, n);
        ListingGrows(pages, i + 1, n);
      }
    }
  }

  /** The continuation tokens `n` requests carry: none first, then each one the page before named. */
  function TokensSent(pages: seq<PageReply>, n: nat): (r: seq<Option<string>>)
    requires n <= |pages| + 1
    ensures |r| == n
  {
    if n == 0 then []
    else TokensSent(pages, n - 1) + [if n > 1 && pages[n - 2].Page? then pages[n - 2].next else None]
  }

  /** One page: checked key by key, folders left out. */
  method TakePage(prefix: string, before: seq<string>, keys: seq<Option<string>>)
    returns (found: seq<string>, stray: bool)
    ensures stray <==> !AllUnder(prefix, keys)
    ensures !stray ==> found == before + Kept(keys)
  {
    found, stray := before, false;
    var i := 0;
    while i < |keys|
      invariant 0 <= i <= |keys|
      invariant found == before + Kept(keys[..i])
      invariant AllUnder(prefix, keys[..i])
    {
      var named := keys[i];
      assert keys[..i + 1][..i] == keys[..i];
      if named.Some? {
        if !UnderPrefix(named.value, prefix) {
          stray := true;
          return;
        }
        if !IsFolder(named.value) {
          found := found + [named.value];
        }
      }
      i := i + 1;
    }
    assert keys[..i] == keys;
  }

  /**
   `listed`, against a store that answers `pages` and then no more: it succeeds exactly when the
   listing can be answered, and then with every document key in the order the store listed them.
   `tokens` are what it sent, at most thirty-two however the store behaves.
   */
  method Listed(prefix: string, pages: seq<PageReply>)
    returns (result: Result<seq<string>, ListError>, tokens: seq<Option<string>>)
    ensures result.Ok? <==> CanList(prefix, pages)
    ensures result.Ok? ==> Listable(prefix, pages, |tokens|) && result.value == Listing(pages, |tokens|)
    ensures 0 < |tokens| <= 32 && |tokens| <= |pages| + 1 && tokens == TokensSent(pages, |tokens|)
  {
    var found: seq<string> := [];
    var token: Option<string> := None;
    tokens := [];
    for i := 0 to MOST_LIST_PAGES
      invariant Paging(prefix, pages, i, token, tokens, found)
    {
      SendsOne(prefix, pages, i, token, tokens, found);
      tokens := tokens + [token];
      var page := if i < |pages| then pages[i] else PageFailed;
      if page.PageFailed? {
        FailedPageRefuses(prefix, pages, i);
        return Err(StoreFailed), tokens;
      }
      var stray: bool;
      found, stray := TakePage(prefix, found, page.keys);
      if stray {
        TakenPageRefuses(prefix, pages, i);
        return Err(NotUnderPrefix), tokens;
      }
      assert found == Listing(pages, i + 1);
      if !WithinKeyBudget(|found|) {
        TakenPageRefuses(prefix, pages, i);
        return Err(OverBudget), tokens;
      }
      token := page.next;
      if token.None? {
        PageFinishes(prefix, pages, i);
        return Ok(found), tokens;
      }
      assert Unfinished(pages, i + 1);
    }
    FailedPageRefuses(prefix, pages, MOST_LIST_PAGES);
    result := Err(NeverFinished);
  }

  /** After `i` pages: what was sent, what is sent next, and what has been found. */
  predicate Paging(prefix: string, pages: seq<PageReply>, i: nat, token: Option<string>, tokens: seq<Option<string>>,
                   found: seq<string>) {
    && i <= |pages| && tokens == TokensSent(pages, i)
    && token == (if i > 0 && pages[i - 1].Page? then pages[i - 1].next else None)
    && Unfinished(pages, i)
    && (forall k :: 0 <= k < i ==> AllUnder(prefix, pages[k].keys))
    && found == Listing(pages, i)
  }

  lemma SendsOne(prefix: string, pages: seq<PageReply>, i: nat, token: Option<string>, tokens: seq<Option<string>>,
                 found: seq<string>)
    requires Paging(prefix, pages, i, token, tokens, found)
    ensures |tokens| == i && tokens + [token] == TokensSent(pages, i + 1)
  {
  }

  lemma PageFinishes(prefix: string, pages: seq<PageReply>, i: nat)
    requires Unfinished(pages, i) && i < |pages| && i < MOST_LIST_PAGES
    requires pages[i].Page? && pages[i].next.None?
    requires (forall k :: 0 <= k <= i ==> AllUnder(prefix, pages[k].keys)) && WithinKeyBudget(|Listing(pages, i + 1)|)
    ensures Listable(prefix, pages, i + 1) && CanList(prefix, pages)
  {
    assert Listable(prefix, pages, i + 1);
  }

  // ---- Against a store that pages through one list

  /**
   A bucket's objects in order, and a store that answers any token with a page of them, as long or
   as short as it likes, empty ones included; `starts` is where the page a token asks for begins.
   */
  datatype Pager = Pager(objects: seq<Option<string>>, answer: Option<string> -> PageReply,
                         starts: Option<string> -> nat)

  /** A page goes on where its token says, names a token for where it stopped, and none only at the end. */
  predicate GoesOn(pager: Pager, token: Option<string>) {
    var page, start := pager.answer(token), pager.starts(token);
    page.Page? && start <= |pager.objects| ==>
      && start + |page.keys| <= |pager.objects|
      && page.keys == pager.objects[start..start + |page.keys|]
      && start + |page.keys| == if page.next.Some? then pager.starts(page.next) else |pager.objects|
  }

  ghost predicate IsPager(pager: Pager) {
    pager.starts(None) == 0 && forall token :: GoesOn(pager, token)
  }

  /** The token request number `i` carries. */
  function TokenAt(pages: seq<PageReply>, i: nat): (r: Option<string>)
    requires i <= |pages|
  {
    if i > 0 && pages[i - 1].Page? then pages[i - 1].next else None
  }

  lemma TokenAtIsSent(pages: seq<PageReply>, i: nat)
    requires i <= |pages|
    ensures TokensSent(pages, i + 1)[i] == TokenAt(pages, i)
  {
  }

  /** Every page is the store's answer to the token that was sent for it. */
  ghost predicate ServedBy(pager: Pager, pages: seq<PageReply>) {
    forall i :: 0 <= i < |pages| ==> ServedAt(pager, pages, i)
  }

  predicate ServedAt(pager: Pager, pages: seq<PageReply>, i: nat)
    requires i < |pages|
  {
    pages[i] == pager.answer(TokensSent(pages, i + 1)[i])
  }

  lemma ServedByToken(pager: Pager, pages: seq<PageReply>, i: nat)
    requires i < |pages|
    ensures ServedAt(pager, pages, i) <==> pages[i] == pager.answer(TokenAt(pages, i))
  {
    TokenAtIsSent(pages, i);
  }

  lemma {:induction false} KeptAppend(a: seq<Option<string>>, b: seq<Option<string>>)
    ensures Kept(a + b) == Kept(a) + Kept(b)
  {
    if b == [] {
      assert a + b == a;
    } else {
      assert (a + b)[..|a + b| - 1] == a + b[..|b| - 1];
      KeptAppend(a, b[..|b| - 1]);
    }
  }

  /** One page more of the list. */
  lemma PageGoesOn(pager: Pager, token: Option<string>, page: PageReply, start: nat)
    requires IsPager(pager) && page == pager.answer(token) && page.Page?
    requires start == pager.starts(token) && start <= |pager.objects|
    ensures start + |page.keys| <= |pager.objects|
    ensures Kept(pager.objects[..start]) + Kept(page.keys) == Kept(pager.objects[..start + |page.keys|])
    ensures start + |page.keys| == if page.next.Some? then pager.starts(page.next) else |pager.objects|
  {
    assert GoesOn(pager, token);
    assert pager.objects[..start + |page.keys|] == pager.objects[..start] + page.keys;
    KeptAppend(pager.objects[..start], page.keys);
  }

  /** Everything up to where page `i` starts has been found. */
  predicate Reached(pager: Pager, pages: seq<PageReply>, i: nat, start: nat) {
    && i <= |pages| && start <= |pager.objects|
    && start == pager.starts(TokenAt(pages, i))
    && Listing(pages, i) == Kept(pager.objects[..start])
  }

  lemma NextListing(pages: seq<PageReply>, i: nat)
    requires i < |pages| && pages[i].Page?
    ensures Listing(pages, i + 1) == Listing(pages, i) + Kept(pages[i].keys)
    ensures TokenAt(pages, i + 1) == pages[i].next
  {
  }

  lemma ReachesNext(pager: Pager, pages: seq<PageReply>, i: nat, start: nat)
    requires IsPager(pager) && Reached(pager, pages, i, start)
    requires i < |pages| && pages[i] == pager.answer(TokenAt(pages, i)) && pages[i].Page?
    ensures start + |pages[i].keys| <= |pager.objects|
    ensures Listing(pages, i + 1) == Kept(pager.objects[..start + |pages[i].keys|])
    ensures start + |pages[i].keys| ==
            if pages[i].next.Some? then pager.starts(TokenAt(pages, i + 1)) else |pager.objects|
  {
    PageGoesOn(pager, TokenAt(pages, i), pages[i], start);
    NextListing(pages, i);
  }

  /** After any number of pages what has been found is the documents up to where the next one starts. */
  lemma {:induction false} PagerReaches(pager: Pager, pages: seq<PageReply>, i: nat) returns (start: nat)
    requires IsPager(pager) && ServedBy(pager, pages) && Unfinished(pages, i)
    ensures Reached(pager, pages, i, start)
  {
    if i == 0 {
      start := 0;
    } else {
      var before := PagerReaches(pager, pages, i - 1);
      ServedByToken(pager, pages, i - 1);
      ReachesNext(pager, pages, i - 1, before);
      start := before + |pages[i - 1].keys|;
    }
  }

  /**
   The listing is complete: from any store that pages through a list, whatever its page sizes, a
   listing that finishes is every document of the list, in order, and nothing else.
   */
  lemma ListsEverything(pager: Pager, pages: seq<PageReply>, n: nat)
    requires IsPager(pager) && ServedBy(pager, pages) && FinishesAt(pages, n)
    ensures Listing(pages, n) == Kept(pager.objects)
  {
    var start := PagerReaches(pager, pages, n - 1);
    ServedByToken(pager, pages, n - 1);
    ReachesNext(pager, pages, n - 1, start);
    assert pager.objects[..|pager.objects|] == pager.objects;
  }

  // ---- Do the two budgets fit each other?

  const SMALL_PAGE: nat := 16

  /** Every page but the last carries at least sixteen documents. */
  predicate DecentPages(pages: seq<PageReply>, n: nat)
    requires n <= |pages|
  {
    forall i :: 0 <= i < n - 1 ==> pages[i].Page? && |Kept(pages[i].keys)| >= SMALL_PAGE
  }

  lemma {:induction false} PagesAddUp(pages: seq<PageReply>, n: nat)
    requires n <= |pages|
    requires forall i :: 0 <= i < n ==> pages[i].Page? && |Kept(pages[i].keys)| >= SMALL_PAGE
    ensures |Listing(pages, n)| >= SMALL_PAGE * n
  {
    if n > 0 { PagesAddUp(pages, n - 1); }
  }

  lemma LastPageFits(pages: seq<PageReply>, n: nat)
    requires FinishesAt(pages, n) && DecentPages(pages, n) && WithinKeyBudget(|Listing(pages, n)|)
    ensures n <= 33
    ensures n == 33 ==> |Listing(pages, n)| == 512 && Kept(pages[n - 1].keys) == []
  {
    PagesAddUp(pages, n - 1);
    assert |Listing(pages, n)| == |Listing(pages, n - 1)| + |Kept(pages[n - 1].keys)|;
  }

  /**
   The page budget refuses no prefix the key budget allows, from any store whose pages carry at
   least sixteen documents until the last, but for one shape: exactly 512 documents on thirty-two
   pages, and then a thirty-third with nothing on it.
   */
  lemma BudgetsFit(prefix: string, pages: seq<PageReply>, n: nat)
    requires FinishesAt(pages, n) && DecentPages(pages, n)
    requires forall i :: 0 <= i < n ==> AllUnder(prefix, pages[i].keys)
    requires WithinKeyBudget(|Listing(pages, n)|)
    ensures CanList(prefix, pages) <==> !(n == 33 && |Listing(pages, n)| == 512 && Kept(pages[n - 1].keys) == [])
  {
    LastPageFits(pages, n);
    if n <= MOST_LIST_PAGES {
      assert Listable(prefix, pages, n);
    } else {
      FailedPageRefuses(prefix, pages, MOST_LIST_PAGES);
    }
  }

  /** The keys "a", "aa", and so on: all different, and in the order a store lists them. */
  function Numbered(q: nat): (r: string) {
    seq(q + 1, _ => 'a')
  }

  function NumberedPage(i: nat): (r: PageReply) {
    Page(seq(SMALL_PAGE, j requires 0 <= j < SMALL_PAGE => Some(Numbered(SMALL_PAGE * i + j))), Some(Numbered(i)))
  }

  /** The page a token asks for, when the token page `i` names is the `i`th numbered key. */
  function PageNumber(token: Option<string>): (r: nat) {
    match token
    case None => 0
    case Some(text) => |text|
  }

  /** A store of 512 objects that lists sixteen of them a page, and then a page with nothing on it. */
  const NUMBERED: Pager := Pager(
    seq(512, q requires 0 <= q < 512 => Some(Numbered(q))),
    token => if PageNumber(token) < 32 then NumberedPage(PageNumber(token))
             else if PageNumber(token) == 32 then Page([], None) else PageFailed,
    token => SMALL_PAGE * PageNumber(token))

  lemma NumberedIsPager()
    ensures IsPager(NUMBERED)
  {
    forall token ensures GoesOn(NUMBERED, token) {
      var n := PageNumber(token);
      if n < 32 {
        var start, page := SMALL_PAGE * n, NumberedPage(n);
        assert forall j :: 0 <= j < SMALL_PAGE ==> page.keys[j] == NUMBERED.objects[start + j];
        assert page.keys == NUMBERED.objects[start..start + SMALL_PAGE];
      }
    }
  }

  /** The pages it answers with, one after another. */
  function NumberedPages(): (r: seq<PageReply>)
    ensures |r| == 33 && AreNumbered(r, 32) && r[32] == Page([], None)
  {
    seq(32, i requires 0 <= i < 32 => NumberedPage(i)) + [Page([], None)]
  }

  lemma NumberedIsServed()
    ensures ServedBy(NUMBERED, NumberedPages())
  {
    var pages := NumberedPages();
    forall i | 0 <= i < |pages| ensures ServedAt(NUMBERED, pages, i) {
      ServedByToken(NUMBERED, pages, i);
      assert PageNumber(TokenAt(pages, i)) == i;
    }
  }

  /** The shape exists: a store that pages through 512 different keys, which the page budget refuses. */
  lemma BudgetsMissOneShape()
    ensures var pages := NumberedPages();
            && IsPager(NUMBERED) && ServedBy(NUMBERED, pages)
            && FinishesAt(pages, 33) && DecentPages(pages, 33)
            && WithinKeyBudget(|Listing(pages, 33)|)
            && (forall p, q :: 0 <= p < q < |Listing(pages, 33)| ==> Listing(pages, 33)[p] != Listing(pages, 33)[q])
            && (forall i :: 0 <= i < 33 ==> pages[i].Page? && AllUnder("", pages[i].keys))
            && !CanList("", pages)
  {
    NumberedIsPager();
    NumberedIsServed();
    NumberedFinishes();
    BudgetsFit("", NumberedPages(), 33);
    NumberedDiffer(Listing(NumberedPages(), 33));
  }

  lemma NumberedFinishes()
    ensures var pages := NumberedPages();
            && FinishesAt(pages, 33) && DecentPages(pages, 33)
            && |Listing(pages, 33)| == 512 && IsNumbered(Listing(pages, 33), 0) && Kept(pages[32].keys) == []
            && forall i :: 0 <= i < 33 ==> pages[i].Page? && AllUnder("", pages[i].keys)
  {
    var pages := NumberedPages();
    NumberedListing(pages, 32);
    forall i | 0 <= i < 32 ensures pages[i].Page? && pages[i].next.Some? && |Kept(pages[i].keys)| >= SMALL_PAGE {
      PageIsKept(pages[i], i);
    }
    assert Listing(pages, 33) == Listing(pages, 32);
  }

  lemma NumberedDiffer(keys: seq<string>)
    requires IsNumbered(keys, 0)
    ensures forall p, q :: 0 <= p < q < |keys| ==> keys[p] != keys[q]
  {
    assert forall q :: 0 <= q < |keys| ==> |keys[q]| == q + 1;
  }

  lemma {:induction false} KeptAll(keys: seq<Option<string>>)
    requires forall i :: 0 <= i < |keys| ==> keys[i].Some? && !IsFolder(keys[i].value)
    ensures |Kept(keys)| == |keys|
    ensures forall i :: 0 <= i < |keys| ==> Kept(keys)[i] == keys[i].value
  {
    if keys != [] { KeptAll(keys[..|keys| - 1]); }
  }

  /** The numbered keys from `first` on. */
  predicate IsNumbered(keys: seq<string>, first: nat) {
    forall j :: 0 <= j < |keys| ==> keys[j] == Numbered(first + j)
  }

  lemma PageIsKept(page: PageReply, i: nat)
    requires page == NumberedPage(i)
    ensures page.Page? && |Kept(page.keys)| == SMALL_PAGE && IsNumbered(Kept(page.keys), SMALL_PAGE * i)
  {
    var keys := page.keys;
    forall j | 0 <= j < |keys| ensures keys[j].Some? && !IsFolder(keys[j].value) {
      assert keys[j].value == Numbered(SMALL_PAGE * i + j);
    }
    KeptAll(keys);
  }

  lemma NumberedOn(before: seq<string>, kept: seq<string>)
    requires IsNumbered(before, 0) && IsNumbered(kept, |before|)
    ensures IsNumbered(before + kept, 0)
  {
  }

  predicate AreNumbered(pages: seq<PageReply>, n: nat) {
    n <= |pages| && forall i :: 0 <= i < n ==> pages[i] == NumberedPage(i)
  }

  lemma {:induction false} NumberedListing(pages: seq<PageReply>, n: nat)
    requires AreNumbered(pages, n)
    ensures |Listing(pages, n)| == SMALL_PAGE * n && IsNumbered(Listing(pages, n), 0)
  {
    if n > 0 {
      NumberedListing(pages, n - 1);
      PageIsKept(pages[n - 1], n - 1);
      NumberedOn(Listing(pages, n - 1), Kept(pages[n - 1].keys));
    }
  }
}
