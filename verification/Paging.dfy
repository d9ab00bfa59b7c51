/** Listing the candidates of an import page by page. */
module Paging {
  import opened Wrappers
  import opened Sequences

  datatype Status = Pending | Approved | Rejected

  /** A candidate, reduced to what the listing looks at. */
  datatype Candidate = Candidate(id: string, status: Status)

  const LARGEST_PAGE: nat := 100

  datatype Query = Query(cursor: Option<string>, status: Option<Status>, limit: Option<nat>)

  function PageSize(limit: Option<nat>): nat {
    if limit.Some? && limit.value < LARGEST_PAGE then limit.value else LARGEST_PAGE
  }

  /** What follows the first candidate with the given id; nothing when there is none. */
  function After(candidates: seq<Candidate>, id: string): seq<Candidate> {
    if candidates == [] then []
    else if candidates[0].id == id then candidates[1..]
    else After(candidates[1..], id)
  }

  function From(candidates: seq<Candidate>, cursor: Option<string>): seq<Candidate> {
    if cursor.Some? then After(candidates, cursor.value) else candidates
  }

  function Wanted(status: Option<Status>): Candidate -> bool {
    (candidate: Candidate) => status.None? || candidate.status == status.value
  }

  function Take(candidates: seq<Candidate>, n: nat): seq<Candidate> {
    if |candidates| <= n then candidates else candidates[..n]
  }

  function ListCandidates(candidates: seq<Candidate>, query: Query): seq<Candidate> {
    Take(Filter(Wanted(query.status), From(candidates, query.cursor)), PageSize(query.limit))
  }

  // ---------------------------------------------------------------- following the pages

  predicate DistinctIds(candidates: seq<Candidate>) {
    forall i, j | 0 <= i < j < |candidates| :: candidates[i].id != candidates[j].id
  }

  lemma {:induction false} AfterIsShorter(candidates: seq<Candidate>, id: string)
    ensures |After(candidates, id)| <= |candidates|
    ensures (exists candidate :: candidate in candidates && candidate.id == id) ==> |After(candidates, id)| < |candidates|
  {
    if candidates != [] {
      AfterIsShorter(candidates[1..], id);
      assert candidates == [candidates[0]] + candidates[1..];
    }
  }

  /** Skipping a prefix without the id first makes no difference. */
  lemma {:induction false} AfterSkips(prefix: seq<Candidate>, rest: seq<Candidate>, id: string)
    requires forall candidate | candidate in prefix :: candidate.id != id
    ensures After(prefix + rest, id) == After(rest, id)
  {
    if prefix == [] {
      assert prefix + rest == rest;
    } else {
      assert prefix[0] in prefix;
      assert (prefix + rest)[1..] == prefix[1..] + rest;
      AfterSkips(prefix[1..], rest, id);
    }
  }

  /** What follows a cursor is a suffix of the list. */
  lemma {:induction false} AfterIsSuffix(candidates: seq<Candidate>, id: string) returns (prefix: seq<Candidate>)
    ensures candidates == prefix + After(candidates, id)
  {
    if candidates == [] {
      prefix := [];
    } else if candidates[0].id == id {
      prefix := [candidates[0]];
    } else {
      prefix := AfterIsSuffix(candidates[1..], id);
      prefix := [candidates[0]] + prefix;
      assert candidates == [candidates[0]] + candidates[1..];
    }
  }

  lemma FilterCons(keep: Candidate -> bool, first: Candidate, rest: seq<Candidate>)
    ensures Filter(keep, [first] + rest) == (if keep(first) then [first] else []) + Filter(keep, rest)
  {
    assert ([first] + rest)[1..] == rest;
  }

  lemma DistinctTail(first: Candidate, rest: seq<Candidate>)
    requires DistinctIds([first] + rest)
    ensures DistinctIds(rest) && forall candidate | candidate in rest :: candidate.id != first.id
  {
    var all := [first] + rest;
    assert forall k | 0 <= k < |rest| :: all[k + 1] == rest[k];
    assert all[0] == first;
  }

  /** A page, followed by what the filter keeps after the page's last candidate, is all that the filter keeps. */
  ghost predicate Continues(candidates: seq<Candidate>, keep: Candidate -> bool, page: seq<Candidate>) {
    page != [] ==>
      && page[|page| - 1] in candidates
      && Filter(keep, candidates) == page + Filter(keep, After(candidates, page[|page| - 1].id))
  }

  lemma AfterCons(first: Candidate, rest: seq<Candidate>, id: string)
    ensures After([first] + rest, id) == if first.id == id then rest else After(rest, id)
  {
    assert ([first] + rest)[1..] == rest;
  }

  lemma ContinuesOne(first: Candidate, rest: seq<Candidate>, keep: Candidate -> bool)
    requires keep(first)
    ensures Continues([first] + rest, keep, [first])
  {
    FilterCons(keep, first, rest);
    AfterCons(first, rest, first.id);
  }

  /** A page of the rest is, with or without the first candidate in front, a page of the whole. */
  lemma ContinuesBehind(first: Candidate, rest: seq<Candidate>, keep: Candidate -> bool, page: seq<Candidate>)
    requires page != [] && Continues(rest, keep, page)
    requires forall candidate | candidate in rest :: candidate.id != first.id
    ensures Continues([first] + rest, keep, (if keep(first) then [first] else []) + page)
  {
    var last, front := page[|page| - 1], if keep(first) then [first] else [];
    var behind := Filter(keep, After(rest, last.id));
    FilterCons(keep, first, rest);
    AfterCons(first, rest, last.id);
    assert (front + page)[|front + page| - 1] == last;
    Regroup(front, page, behind);
  }

  lemma Regroup(a: seq<Candidate>, b: seq<Candidate>, c: seq<Candidate>)
    ensures a + (b + c) == a + b + c
  {
  }

  lemma TakeCons(first: Candidate, rest: seq<Candidate>, n: nat)
    requires n > 0
    ensures Take([first] + rest, n) == [first] + Take(rest, n - 1)
  {
  }

  lemma {:induction false} PageThenRest(candidates: seq<Candidate>, keep: Candidate -> bool, n: nat)
    requires DistinctIds(candidates) && n > 0
    ensures Continues(candidates, keep, Take(Filter(keep, candidates), n))
  {
    if candidates != [] {
      var first, rest := candidates[0], candidates[1..];
      assert candidates == [first] + rest;
      DistinctTail(first, rest);
      FilterCons(keep, first, rest);
      if keep(first) {
        TakeCons(first, Filter(keep, rest), n);
      }
      var m := if keep(first) then n - 1 else n;
      var page := Take(Filter(keep, rest), m);
      if page == [] {
        if keep(first) {
          ContinuesOne(first, rest, keep);
        }
      } else {
        PageThenRest(rest, keep, m);
        ContinuesBehind(first, rest, keep, page);
        assert [] + page == page;
      }
    }
  }

  lemma SuffixIsDistinct(prefix: seq<Candidate>, rest: seq<Candidate>)
    requires DistinctIds(prefix + rest)
    ensures DistinctIds(rest)
    ensures forall a, b | a in prefix && b in rest :: a.id != b.id
  {
    var all := prefix + rest;
    assert forall k | 0 <= k < |rest| :: all[|prefix| + k] == rest[k];
    assert forall k | 0 <= k < |prefix| :: all[k] == prefix[k];
  }

  lemma AfterLast(candidates: seq<Candidate>, cursor: Option<string>, last: Candidate)
    requires DistinctIds(candidates) && last in From(candidates, cursor)
    ensures After(candidates, last.id) == After(From(candidates, cursor), last.id)
    ensures |After(candidates, last.id)| < |From(candidates, cursor)|
  {
    var rest := From(candidates, cursor);
    if cursor.Some? {
      var prefix := AfterIsSuffix(candidates, cursor.value);
      SuffixIsDistinct(prefix, rest);
      AfterSkips(prefix, rest, last.id);
    }
    AfterIsShorter(rest, last.id);
  }

  lemma FromIsDistinct(candidates: seq<Candidate>, cursor: Option<string>)
    requires DistinctIds(candidates)
    ensures DistinctIds(From(candidates, cursor))
  {
    if cursor.Some? {
      var prefix := AfterIsSuffix(candidates, cursor.value);
      SuffixIsDistinct(prefix, From(candidates, cursor));
    }
  }

  /** One page from a cursor, and where the next one starts. */
  lemma NextPage(candidates: seq<Candidate>, query: Query)
    requires DistinctIds(candidates) && PageSize(query.limit) > 0
    ensures var page := ListCandidates(candidates, query);
            page != [] ==>
              var cursor := Some(page[|page| - 1].id);
              && |From(candidates, cursor)| < |From(candidates, query.cursor)|
              && Filter(Wanted(query.status), From(candidates, query.cursor))
                   == page + Filter(Wanted(query.status), From(candidates, cursor))
  {
    FromIsDistinct(candidates, query.cursor);
    PageThenRest(From(candidates, query.cursor), Wanted(query.status), PageSize(query.limit));
    var page := ListCandidates(candidates, query);
    if page != [] {
      AfterLast(candidates, query.cursor, page[|page| - 1]);
    }
  }

  /** What a client reads that asks again from the last id it got until a page comes back empty. */
  function Follow(candidates: seq<Candidate>, query: Query): seq<Candidate>
    requires DistinctIds(candidates) && PageSize(query.limit) > 0
    decreases |From(candidates, query.cursor)|
  {
    var page := ListCandidates(candidates, query);
    NextPage(candidates, query);
    if page == [] then [] else page + Follow(candidates, query.(cursor := Some(page[|page| - 1].id)))
  }

  /** Following the pages from the start terminates and yields exactly the candidates asked for: no gap, no repeat. */
  lemma {:induction false} PagingIsComplete(candidates: seq<Candidate>, query: Query)
    requires DistinctIds(candidates) && PageSize(query.limit) > 0
    ensures Follow(candidates, query) == Filter(Wanted(query.status), From(candidates, query.cursor))
    ensures query.cursor.None? ==> Follow(candidates, query) == Filter(Wanted(query.status), candidates)
    decreases |From(candidates, query.cursor)|
  {
    NextPage(candidates, query);
    var page := ListCandidates(candidates, query);
    if page != [] {
      PagingIsComplete(candidates, query.(cursor := Some(page[|page| - 1].id)));
    }
  }

  // ---------------------------------------------------------------- what is listed

  /** The status asked for, if one was. */
  predicate IsAskedFor(status: Option<Status>, candidate: Candidate) {
    match status
    case None => true
    case Some(wanted) => candidate.status == wanted
  }

  lemma {:induction false} SameKept(p: Candidate -> bool, q: Candidate -> bool, candidates: seq<Candidate>)
    requires forall candidate :: p(candidate) == q(candidate)
    ensures Filter(p, candidates) == Filter(q, candidates)
  {
    if candidates != [] {
      SameKept(p, q, candidates[1..]);
    }
  }

  /** Read from the start, the pages together list each candidate of the wanted status once, in order, and no other. */
  lemma PagesListTheAskedFor(candidates: seq<Candidate>, query: Query) returns (at: seq<nat>)
    requires DistinctIds(candidates) && PageSize(query.limit) > 0 && query.cursor.None?
    ensures IsSelection((candidate: Candidate) => IsAskedFor(query.status, candidate), candidates,
                        Follow(candidates, query), at)
  {
    PagingIsComplete(candidates, query);
    var wanted := (candidate: Candidate) => IsAskedFor(query.status, candidate);
    SameKept(Wanted(query.status), wanted, candidates);
    at := FilterSelects(wanted, candidates);
  }

  /** A page starts behind the candidate the cursor names; an unknown cursor leaves nothing. */
  lemma {:induction false} CursorMeaning(candidates: seq<Candidate>, id: string)
    requires DistinctIds(candidates)
    ensures forall k | 0 <= k < |candidates| && candidates[k].id == id :: From(candidates, Some(id)) == candidates[k + 1..]
    ensures (forall candidate | candidate in candidates :: candidate.id != id) ==> From(candidates, Some(id)) == []
  {
    if candidates != [] {
      assert candidates == [candidates[0]] + candidates[1..];
      DistinctTail(candidates[0], candidates[1..]);
      CursorMeaning(candidates[1..], id);
      forall k | 0 < k < |candidates| && candidates[k].id == id ensures candidates[0].id != id {
      }
    }
  }

  /** No page has more than was asked for, nor more than a hundred, and one that has less is the last. */
  lemma PageSizeMeaning(candidates: seq<Candidate>, query: Query)
    requires DistinctIds(candidates) && PageSize(query.limit) > 0
    ensures var page := ListCandidates(candidates, query);
            && |page| <= 100
            && (query.limit.Some? ==> |page| <= query.limit.value)
            && (|page| < 100 && (query.limit.None? || |page| < query.limit.value) ==> page == Follow(candidates, query))
  {
    PagingIsComplete(candidates, query);
  }
}
