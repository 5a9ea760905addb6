/**
  The cursor loop of AcceptanceClient::list_instances (apps/operator-cli/src/vultr_client.rs)
  over a provider seen as a function from an optional cursor to a page.
 */
module Pagination {
  import opened Wrappers

  const INSTANCE_PAGE_SIZE: nat := 500
  const MAX_INSTANCE_PAGES: nat := 20
  const MAX_CURSOR_BYTES: nat := 1024

  datatype ClientError =
    | Transport
    | InvalidResponse
    | Adapter
    | InvalidPagination
    | PaginationLimitExceeded

  datatype PageLinks = PageLinks(next: string)
  datatype PageMeta = PageMeta(links: Option<PageLinks>)
  datatype Page<D> = Page(instances: seq<D>, meta: Option<PageMeta>)

  /** The provider: a page, or an error, for every cursor. */
  type Fetch<D> = Option<string> -> Result<Page<D>, ClientError>

  /** The link to the next page; a missing meta or links object counts as no link. */
  function NextLink<D>(page: Page<D>): string {
    if page.meta.Some? && page.meta.value.links.Some? then page.meta.value.links.value.next else ""
  }

  /** The length of a text in UTF-8, as the source measures it. */
  function Utf8Length(s: string): nat {
    if s == "" then 0 else Utf8Length(s[..|s| - 1]) + Utf8Width(s[|s| - 1])
  }

  function Utf8Width(c: char): nat {
    if c as int < 0x80 then 1 else if c as int < 0x800 then 2 else if c as int < 0x10000 then 3 else 4
  }

  function DecodeAll<D, V>(instances: seq<D>, decode: D -> Option<V>): Option<seq<V>> {
    if instances == [] then Some([])
    else
      match (decode(instances[0]), DecodeAll(instances[1..], decode))
      case (Some(v), Some(rest)) => Some([v] + rest)
      case _ => None
  }

  /** A full page without any meta object may have been cut off, so it cannot end the listing. */
  predicate Ambiguous<D>(page: Page<D>) {
    |page.instances| >= INSTANCE_PAGE_SIZE && page.meta.None?
  }

  // ---------------------------------------------------------------- the cursor chain

  predicate Usable<D, V>(fetch: Fetch<D>, decode: D -> Option<V>, cursor: Option<string>) {
    fetch(cursor).Ok? && DecodeAll(fetch(cursor).value.instances, decode).Some?
  }

  /** The chain from `cursor` consists of exactly `n` usable pages, the last one without a next link. */
  predicate EndsIn<D, V>(fetch: Fetch<D>, decode: D -> Option<V>, cursor: Option<string>, n: nat)
    decreases n
  {
    && n > 0
    && Usable(fetch, decode, cursor)
    && var page := fetch(cursor).value;
       var next := NextLink(page);
       if next == "" then n == 1 && !Ambiguous(page)
       else Utf8Length(next) <= MAX_CURSOR_BYTES && EndsIn(fetch, decode, Some(next), n - 1)
  }

  /** Everything the chain lists, in order. */
  function Listing<D, V>(fetch: Fetch<D>, decode: D -> Option<V>, cursor: Option<string>, n: nat): seq<V>
    requires EndsIn(fetch, decode, cursor, n)
    decreases n
  {
    var page := fetch(cursor).value;
    var here := DecodeAll(page.instances, decode).value;
    if NextLink(page) == "" then here else here + Listing(fetch, decode, Some(NextLink(page)), n - 1)
  }

  lemma {:induction false} EndIsUnique<D, V>(
    fetch: Fetch<D>, decode: D -> Option<V>, cursor: Option<string>, n: nat, m: nat)
    requires EndsIn(fetch, decode, cursor, n) && EndsIn(fetch, decode, cursor, m)
    ensures n == m
    decreases n
  {
    var next := NextLink(fetch(cursor).value);
    if next != "" {
      EndIsUnique(fetch, decode, Some(next), n - 1, m - 1);
    }
  }

  /** The page reached from `cursor` after `i` links. */
  ghost predicate Reaches<D, V>(
    fetch: Fetch<D>, decode: D -> Option<V>,
    cursor: Option<string>, i: nat, target: Option<string>)
    decreases i
  {
    if i == 0 then cursor == target
    else
      && Usable(fetch, decode, cursor)
      && NextLink(fetch(cursor).value) != ""
      && Reaches(fetch, decode, Some(NextLink(fetch(cursor).value)), i - 1, target)
  }

  lemma {:induction false} ReachShortens<D, V>(
    fetch: Fetch<D>, decode: D -> Option<V>,
    cursor: Option<string>, i: nat, target: Option<string>, n: nat)
    requires Reaches(fetch, decode, cursor, i, target) && EndsIn(fetch, decode, cursor, n)
    ensures i < n && EndsIn(fetch, decode, target, n - i)
    decreases i
  {
    if i > 0 {
      ReachShortens(fetch, decode, Some(NextLink(fetch(cursor).value)), i - 1, target, n - 1);
    }
  }

  /** A chain that ends never comes back to a cursor. */
  lemma EndingChainsDoNotLoop<D, V>(
    fetch: Fetch<D>, decode: D -> Option<V>, cursor: Option<string>, i: nat, n: nat)
    requires Reaches(fetch, decode, cursor, i, cursor) && EndsIn(fetch, decode, cursor, n)
    ensures i == 0
  {
    ReachShortens(fetch, decode, cursor, i, cursor, n);
    EndIsUnique(fetch, decode, cursor, n, n - i);
  }

  /** The chain is complete after at most `limit` pages. */
  ghost predicate EndsWithin<D, V>(fetch: Fetch<D>, decode: D -> Option<V>, limit: nat) {
    exists n: nat :: EndsIn(fetch, decode, None, n) && n <= limit
  }

  // ---------------------------------------------------------------- what the chain means

  ghost predicate Decodes<D, V>(decode: D -> Option<V>, raw: seq<D>, values: seq<V>) {
    |values| == |raw| && forall i | 0 <= i < |raw| :: decode(raw[i]) == Some(values[i])
  }

  /** A page decodes to its instances one by one, and fails exactly when one of them does. */
  lemma {:induction false} DecodeAllMeans<D, V>(raw: seq<D>, decode: D -> Option<V>)
    ensures DecodeAll(raw, decode).Some? ==> Decodes(decode, raw, DecodeAll(raw, decode).value)
    ensures DecodeAll(raw, decode).None? <==> exists i :: 0 <= i < |raw| && decode(raw[i]).None?
  {
    if raw != [] {
      DecodeAllMeans(raw[1..], decode);
      assert forall i | 0 <= i < |raw| - 1 :: raw[1..][i] == raw[i + 1];
      if DecodeAll(raw[1..], decode).None? {
        var i :| 0 <= i < |raw[1..]| && decode(raw[1..][i]).None?;
        assert decode(raw[i + 1]).None?;
      } else if i :| 0 <= i < |raw| && decode(raw[i]).None? {
        assert i > 0 ==> decode(raw[1..][i - 1]).None?;
      }
    }
  }

  /** The page names the next cursor in its links. */
  ghost predicate LinksTo<D>(page: Page<D>, cursor: Option<string>) {
    && cursor.Some? && cursor.value != "" && Utf8Length(cursor.value) <= 1024
    && page.meta == Some(PageMeta(Some(PageLinks(cursor.value))))
  }

  /** The page says that it is the last one: no link in its meta object, or no meta object and not full. */
  ghost predicate EndsListing<D>(page: Page<D>) {
    if page.meta.None? then |page.instances| < 500
    else page.meta.value.links.None? || page.meta.value.links.value.next == ""
  }

  /** The cursors of a complete listing, the first page without one. */
  ghost predicate IsChain<D>(fetch: Fetch<D>, first: Option<string>, cursors: seq<Option<string>>) {
    && cursors != [] && cursors[0] == first
    && (forall i | 0 <= i < |cursors| :: fetch(cursors[i]).Ok?)
    && (forall i | 0 <= i < |cursors| - 1 :: LinksTo(fetch(cursors[i]).value, cursors[i + 1]))
    && EndsListing(fetch(cursors[|cursors| - 1]).value)
  }

  /** Everything on the pages of a chain. */
  ghost function Raw<D>(fetch: Fetch<D>, cursors: seq<Option<string>>): seq<D>
    requires forall i | 0 <= i < |cursors| :: fetch(cursors[i]).Ok?
  {
    if cursors == [] then [] else fetch(cursors[0]).value.instances + Raw(fetch, cursors[1..])
  }

  lemma LastPageIff<D>(page: Page<D>)
    ensures NextLink(page) == "" && !Ambiguous(page) <==> EndsListing(page)
  {
  }

  lemma NextPageIff<D>(page: Page<D>, next: string)
    ensures NextLink(page) == next && next != "" && Utf8Length(next) <= MAX_CURSOR_BYTES <==> LinksTo(page, Some(next))
  {
    if NextLink(page) == next && next != "" {
      assert page.meta == Some(PageMeta(Some(PageLinks(next))));
    }
  }

  lemma ChainTail<D>(fetch: Fetch<D>, first: Option<string>, cursors: seq<Option<string>>)
    requires IsChain(fetch, first, cursors) && |cursors| > 1
    ensures LinksTo(fetch(first).value, cursors[1]) && IsChain(fetch, cursors[1], cursors[1..])
  {
    var tail := cursors[1..];
    forall i | 0 <= i < |tail| ensures fetch(tail[i]).Ok? {
      assert tail[i] == cursors[i + 1];
    }
    forall i | 0 <= i < |tail| - 1 ensures LinksTo(fetch(tail[i]).value, tail[i + 1]) {
      assert LinksTo(fetch(cursors[i + 1]).value, cursors[i + 1 + 1]);
    }
    assert LinksTo(fetch(cursors[0]).value, cursors[0 + 1]);
  }

  lemma ChainCons<D>(fetch: Fetch<D>, first: Option<string>, tail: seq<Option<string>>)
    requires fetch(first).Ok? && tail != [] && LinksTo(fetch(first).value, tail[0]) && IsChain(fetch, tail[0], tail)
    ensures IsChain(fetch, first, [first] + tail)
    ensures Raw(fetch, [first] + tail) == fetch(first).value.instances + Raw(fetch, tail)
  {
    var cursors := [first] + tail;
    assert cursors[1..] == tail;
    forall i | 0 <= i < |cursors| - 1 ensures LinksTo(fetch(cursors[i]).value, cursors[i + 1]) {
      assert i > 0 ==> LinksTo(fetch(tail[i - 1]).value, tail[i - 1 + 1]);
    }
  }

  /** Concatenations decode piece by piece. */
  lemma DecodesConcat<D, V>(decode: D -> Option<V>, a: seq<D>, b: seq<D>, x: seq<V>, y: seq<V>)
    requires Decodes(decode, a, x) && Decodes(decode, b, y)
    ensures Decodes(decode, a + b, x + y)
  {
  }

  /** A chain that ends in `n` pages is a chain of `n` cursors, and its listing is what is on their pages. */
  lemma {:induction false} EndsInIsChain<D, V>(fetch: Fetch<D>, decode: D -> Option<V>, cursor: Option<string>, n: nat)
    returns (cursors: seq<Option<string>>)
    requires EndsIn(fetch, decode, cursor, n)
    ensures IsChain(fetch, cursor, cursors) && |cursors| == n
    ensures Decodes(decode, Raw(fetch, cursors), Listing(fetch, decode, cursor, n))
    decreases n
  {
    var page := fetch(cursor).value;
    var next := NextLink(page);
    DecodeAllMeans(page.instances, decode);
    if next == "" {
      LastPageIff(page);
      cursors := [cursor];
      assert cursors[1..] == [];
      assert Raw(fetch, cursors) == page.instances + [];
      assert page.instances + [] == page.instances;
    } else {
      NextPageIff(page, next);
      var tail := EndsInIsChain(fetch, decode, Some(next), n - 1);
      ChainCons(fetch, cursor, tail);
      cursors := [cursor] + tail;
      DecodesConcat(decode, page.instances, Raw(fetch, tail),
        DecodeAll(page.instances, decode).value, Listing(fetch, decode, Some(next), n - 1));
    }
  }

  lemma {:induction false} ChainEndsIn<D, V>(
    fetch: Fetch<D>, decode: D -> Option<V>, cursor: Option<string>, cursors: seq<Option<string>>)
    requires IsChain(fetch, cursor, cursors)
    requires forall i | 0 <= i < |Raw(fetch, cursors)| :: decode(Raw(fetch, cursors)[i]).Some?
    ensures EndsIn(fetch, decode, cursor, |cursors|)
    decreases |cursors|
  {
    var page := fetch(cursor).value;
    var rest := Raw(fetch, cursors[1..]);
    assert Raw(fetch, cursors) == page.instances + rest;
    assert forall i | 0 <= i < |page.instances| :: Raw(fetch, cursors)[i] == page.instances[i];
    assert forall i | 0 <= i < |rest| :: Raw(fetch, cursors)[|page.instances| + i] == rest[i];
    DecodeAllMeans(page.instances, decode);
    if |cursors| == 1 {
      LastPageIff(page);
    } else {
      ChainTail(fetch, cursor, cursors);
      NextPageIff(page, cursors[1].value);
      ChainEndsIn(fetch, decode, cursors[1], cursors[1..]);
    }
  }

  /** Some chain of at most twenty pages is complete and decodes to these values. */
  ghost predicate Lists<D, V>(fetch: Fetch<D>, decode: D -> Option<V>, values: seq<V>) {
    exists cursors :: IsChain(fetch, None, cursors) && |cursors| <= 20 && Decodes(decode, Raw(fetch, cursors), values)
  }

  lemma ListsIff<D, V>(fetch: Fetch<D>, decode: D -> Option<V>, r: Result<seq<V>, ClientError>)
    requires r.Ok? <==> EndsWithin(fetch, decode, MAX_INSTANCE_PAGES)
    requires forall n: nat | EndsIn(fetch, decode, None, n) ::
               n <= MAX_INSTANCE_PAGES ==> r == Ok(Listing(fetch, decode, None, n))
    ensures r.Ok? ==> Lists(fetch, decode, r.value)
    ensures forall values | Lists(fetch, decode, values) :: r.Ok?
  {
    if r.Ok? {
      var n: nat :| EndsIn(fetch, decode, None, n) && n <= MAX_INSTANCE_PAGES;
      var cursors := EndsInIsChain(fetch, decode, None, n);
      assert Lists(fetch, decode, r.value);
    }
    forall values | Lists(fetch, decode, values) ensures r.Ok? {
      var cursors :| IsChain(fetch, None, cursors) && |cursors| <= 20 && Decodes(decode, Raw(fetch, cursors), values);
      ChainEndsIn(fetch, decode, None, cursors);
    }
  }

  // ---------------------------------------------------------------- the loop

  /** The remaining iterations of the loop, `budget` at most. */
  function Run<D, V>(
    fetch: Fetch<D>, decode: D -> Option<V>,
    budget: nat, cursor: Option<string>, observed: seq<V>, seen: set<string>): Result<seq<V>, ClientError>
    decreases budget
  {
    if budget == 0 then Err(PaginationLimitExceeded)
    else
      var page :- fetch(cursor);
      var decoded := DecodeAll(page.instances, decode);
      var next := NextLink(page);
      if decoded.None? then Err(Adapter)
      else if next == "" then
        if Ambiguous(page) then Err(InvalidPagination) else Ok(observed + decoded.value)
      else if Utf8Length(next) > MAX_CURSOR_BYTES || next in seen then Err(InvalidPagination)
      else Run(fetch, decode, budget - 1, Some(next), observed + decoded.value, seen + {next})
  }

  lemma {:induction false} RunIsComplete<D, V>(
    fetch: Fetch<D>, decode: D -> Option<V>,
    budget: nat, cursor: Option<string>, observed: seq<V>, seen: set<string>) returns (n: nat)
    requires Run(fetch, decode, budget, cursor, observed, seen).Ok?
    ensures n <= budget && EndsIn(fetch, decode, cursor, n)
    ensures Run(fetch, decode, budget, cursor, observed, seen).value == observed + Listing(fetch, decode, cursor, n)
    decreases budget
  {
    var page := fetch(cursor).value;
    var here := DecodeAll(page.instances, decode).value;
    var next := NextLink(page);
    if next == "" {
      n := 1;
    } else {
      n := RunIsComplete(fetch, decode, budget - 1, Some(next), observed + here, seen + {next});
      n := n + 1;
      assert observed + here + Listing(fetch, decode, Some(next), n - 1)
          == observed + (here + Listing(fetch, decode, Some(next), n - 1));
    }
  }

  /** Every seen cursor is at least `n` pages from the end. */
  ghost predicate SeenBefore<D, V>(
    fetch: Fetch<D>, decode: D -> Option<V>, seen: set<string>, n: nat)
  {
    forall s | s in seen :: exists m: nat :: m >= n && EndsIn(fetch, decode, Some(s), m)
  }

  lemma NextIsNew<D, V>(
    fetch: Fetch<D>, decode: D -> Option<V>, seen: set<string>, n: nat, next: string)
    requires SeenBefore(fetch, decode, seen, n + 1) && EndsIn(fetch, decode, Some(next), n)
    ensures next !in seen && SeenBefore(fetch, decode, seen + {next}, n)
  {
    if next in seen {
      var m: nat :| m >= n + 1 && EndsIn(fetch, decode, Some(next), m);
      EndIsUnique(fetch, decode, Some(next), m, n);
    }
    forall s | s in seen + {next} ensures exists m: nat :: m >= n && EndsIn(fetch, decode, Some(s), m) {
      if s in seen {
        var m: nat :| m >= n + 1 && EndsIn(fetch, decode, Some(s), m);
      }
    }
  }

  lemma {:induction false} EndingChainSucceeds<D, V>(
    fetch: Fetch<D>, decode: D -> Option<V>,
    budget: nat, cursor: Option<string>, observed: seq<V>, seen: set<string>, n: nat)
    requires EndsIn(fetch, decode, cursor, n) && n <= budget && SeenBefore(fetch, decode, seen, n)
    ensures Run(fetch, decode, budget, cursor, observed, seen).Ok?
    decreases budget
  {
    var page := fetch(cursor).value;
    var next := NextLink(page);
    if next != "" {
      NextIsNew(fetch, decode, seen, n - 1, next);
      EndingChainSucceeds(fetch, decode, budget - 1, Some(next),
        observed + DecodeAll(page.instances, decode).value, seen + {next}, n - 1);
    }
  }

  /**
    The listing succeeds exactly when the cursor chain ends within twenty pages that all decode,
    and then it holds every instance on them, decoded and in order: never a partial listing.
   */
  method ListInstances<D, V>(fetch: Fetch<D>, decode: D -> Option<V>)
    returns (r: Result<seq<V>, ClientError>)
    ensures r.Ok? ==> Lists(fetch, decode, r.value)
    ensures forall values | Lists(fetch, decode, values) :: r.Ok?
    ensures r.Err? ==> StoppedBy(fetch, decode, r.error)
    ensures r.Ok? <==> EndsWithin(fetch, decode, MAX_INSTANCE_PAGES)
    ensures forall n: nat | EndsIn(fetch, decode, None, n) ::
              n <= MAX_INSTANCE_PAGES ==> r == Ok(Listing(fetch, decode, None, n))
  {
    var observed: seq<V> := [];
    var cursor: Option<string> := None;
    var seen: set<string> := {};
    r := Err(PaginationLimitExceeded);
    var i := 0;
    var more := true;
    while more && i < MAX_INSTANCE_PAGES
      invariant i <= MAX_INSTANCE_PAGES
      invariant more ==> r == Err(PaginationLimitExceeded)
      invariant Run(fetch, decode, MAX_INSTANCE_PAGES, None, [], {})
             == if more then Run(fetch, decode, MAX_INSTANCE_PAGES - i, cursor, observed, seen) else r
      decreases MAX_INSTANCE_PAGES - i
    {
      var body := fetch(cursor);
      i := i + 1;
      more := false;
      if body.Err? {
        r := Err(body.error);
      } else {
        var decoded := DecodeAll(body.value.instances, decode);
        var next := NextLink(body.value);
        if decoded.None? {
          r := Err(Adapter);
        } else if next == "" {
          r := if Ambiguous(body.value) then Err(InvalidPagination) else Ok(observed + decoded.value);
        } else if Utf8Length(next) > MAX_CURSOR_BYTES || next in seen {
          r := Err(InvalidPagination);
        } else {
          observed := observed + decoded.value;
          seen := seen + {next};
          cursor := Some(next);
          more := true;
        }
      }
    }
    RunMeaning(fetch, decode, MAX_INSTANCE_PAGES, r);
    ListsIff(fetch, decode, r);
    if r.Err? {
      RunStops(fetch, decode, MAX_INSTANCE_PAGES, [None], [], {});
    }
  }

  // ---------------------------------------------------------------- why a listing is refused

  /** The way to a page: every page before it decodes and links to the next, and no cursor comes twice. */
  ghost predicate IsWay<D, V>(fetch: Fetch<D>, decode: D -> Option<V>, cursors: seq<Option<string>>) {
    && cursors != [] && cursors[0] == None
    && (forall i | 0 <= i < |cursors| - 1 ::
          Usable(fetch, decode, cursors[i]) && LinksTo(fetch(cursors[i]).value, cursors[i + 1]))
    && (forall i, j | 0 <= i < j < |cursors| :: cursors[i] != cursors[j])
  }

  /** What is wrong with the page at the end of the way. */
  ghost predicate Refuses<D, V>(fetch: Fetch<D>, decode: D -> Option<V>, cursors: seq<Option<string>>, e: ClientError)
    requires cursors != []
  {
    var cursor := cursors[|cursors| - 1];
    if fetch(cursor).Err? then e == fetch(cursor).error
    else
      var page := fetch(cursor).value;
      if exists i :: 0 <= i < |page.instances| && decode(page.instances[i]).None? then e == Adapter
      else
        && e == InvalidPagination
        && (if NextLink(page) == "" then page.meta.None? && |page.instances| >= 500
            else Utf8Length(NextLink(page)) > 1024 || Some(NextLink(page)) in cursors)
  }

  /** A listing is refused for the page it came to, or for coming to a twenty-first one. */
  ghost predicate StoppedBy<D, V>(fetch: Fetch<D>, decode: D -> Option<V>, e: ClientError) {
    exists cursors :: IsWay(fetch, decode, cursors)
                      && if |cursors| == 21 then e == PaginationLimitExceeded
                         else |cursors| < 21 && Refuses(fetch, decode, cursors, e)
  }

  lemma WayGoesOn<D, V>(fetch: Fetch<D>, decode: D -> Option<V>, cursors: seq<Option<string>>, next: string)
    requires IsWay(fetch, decode, cursors) && Some(next) !in cursors
    requires Usable(fetch, decode, cursors[|cursors| - 1])
    requires LinksTo(fetch(cursors[|cursors| - 1]).value, Some(next))
    ensures IsWay(fetch, decode, cursors + [Some(next)])
  {
    var longer := cursors + [Some(next)];
    forall i | 0 <= i < |longer| - 1
      ensures Usable(fetch, decode, longer[i]) && LinksTo(fetch(longer[i]).value, longer[i + 1])
    {
      assert i < |cursors| - 1 ==> LinksTo(fetch(cursors[i]).value, cursors[i + 1]);
    }
  }

  lemma {:induction false} RunStops<D, V>(
    fetch: Fetch<D>, decode: D -> Option<V>, budget: nat,
    cursors: seq<Option<string>>, observed: seq<V>, seen: set<string>)
    requires IsWay(fetch, decode, cursors) && |cursors| + budget == 21
    requires forall x :: Some(x) in cursors <==> x in seen
    requires Run(fetch, decode, budget, cursors[|cursors| - 1], observed, seen).Err?
    ensures StoppedBy(fetch, decode, Run(fetch, decode, budget, cursors[|cursors| - 1], observed, seen).error)
    decreases budget
  {
    var cursor := cursors[|cursors| - 1];
    var e := Run(fetch, decode, budget, cursor, observed, seen).error;
    if budget > 0 && fetch(cursor).Ok? {
      var page := fetch(cursor).value;
      var next := NextLink(page);
      DecodeAllMeans(page.instances, decode);
      var decoded := DecodeAll(page.instances, decode);
      if decoded.Some? && next != "" && Utf8Length(next) <= MAX_CURSOR_BYTES && next !in seen {
        NextPageIff(page, next);
        WayGoesOn(fetch, decode, cursors, next);
        RunStops(fetch, decode, budget - 1, cursors + [Some(next)], observed + decoded.value, seen + {next});
      } else {
        assert Refuses(fetch, decode, cursors, e);
      }
    } else {
      assert IsWay(fetch, decode, cursors);
    }
  }

  /** For texts of one-byte characters the length in bytes is the number of characters. */
  lemma {:induction false} Utf8LengthBounds(s: string)
    ensures |s| <= Utf8Length(s) <= 4 * |s|
    ensures (forall i | 0 <= i < |s| :: s[i] as int < 0x80) ==> Utf8Length(s) == |s|
  {
    if s != "" {
      Utf8LengthBounds(s[..|s| - 1]);
    }
  }

  lemma RunMeaning<D, V>(
    fetch: Fetch<D>, decode: D -> Option<V>, limit: nat, r: Result<seq<V>, ClientError>)
    requires r == Run(fetch, decode, limit, None, [], {})
    ensures r.Ok? <==> EndsWithin(fetch, decode, limit)
    ensures forall n: nat | EndsIn(fetch, decode, None, n) :: n <= limit ==> r == Ok(Listing(fetch, decode, None, n))
  {
    if r.Ok? {
      var n := RunIsComplete(fetch, decode, limit, None, [], {});
      assert EndsIn(fetch, decode, None, n);
      assert EndsWithin(fetch, decode, limit);
      assert [] + Listing(fetch, decode, None, n) == Listing(fetch, decode, None, n);
      forall m: nat | EndsIn(fetch, decode, None, m) ensures m == n {
        EndIsUnique(fetch, decode, None, m, n);
      }
    } else {
      forall n: nat | EndsIn(fetch, decode, None, n) ensures n > limit {
        if n <= limit {
          EndingChainSucceeds(fetch, decode, limit, None, [], {}, n);
        }
      }
    }
  }
}
