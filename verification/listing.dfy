/** `get_all_results`: the admin listing of try-on results, newest first,
    capped at 1000 (`find().sort("created_at", -1).to_list(1000)`). Results
    with equal time stamps may come in any order. */
module Listing {
  import opened Records

  /** The most results one listing returns. */
  const Limit: nat := 1000

  /** No result is listed before a newer one. */
  predicate NewestFirst(list: seq<TryonResult>) {
    forall i, j | 0 <= i < j < |list| :: list[i].createdAt >= list[j].createdAt
  }

  /** `k` is listed. */
  predicate Listed(list: seq<TryonResult>, k: string) {
    exists i | 0 <= i < |list| :: list[i].id == k
  }

  /** The key of a newest result among `candidates`. */
  method Newest(results: map<string, TryonResult>, candidates: set<string>) returns (k: string)
    requires candidates != {}
    requires candidates <= results.Keys
    ensures k in candidates
    ensures forall c | c in candidates :: results[c].createdAt <= results[k].createdAt
  {
    var todo := candidates;
    k :| k in todo;
    todo := todo - {k};
    while todo != {}
      invariant todo <= candidates
      invariant k in candidates
      invariant forall c | c in candidates - todo :: results[c].createdAt <= results[k].createdAt
      decreases todo
    {
      var c :| c in todo;
      if results[c].createdAt > results[k].createdAt {
        k := c;
      }
      todo := todo - {c};
    }
  }

  /** `get_all_results()`: stored results only, each at most once, newest
      first; all of them when there are at most 1000, else 1000 none of
      which is older than a result left out. */
  method AllResults(s: Store) returns (r: Response)
    requires WellFormed(s)
    ensures r.Ok? && r.payload.ResultList?
    ensures var list := r.payload.results;
      && |list| == (if |s.results| < Limit then |s.results| else Limit)
      && (forall i | 0 <= i < |list| :: list[i].id in s.results && s.results[list[i].id] == list[i])
      && (forall i, j | 0 <= i < j < |list| :: list[i].id != list[j].id)
      && NewestFirst(list)
      && (forall k | k in s.results && !Listed(list, k) ::
            forall i | 0 <= i < |list| :: s.results[k].createdAt <= list[i].createdAt)
  {
    var remaining := s.results.Keys;
    var list := [];
    while |list| < Limit && remaining != {}
      invariant Progress(s.results, remaining, list)
      invariant |list| <= Limit
      decreases |remaining|
    {
      var k := Newest(s.results, remaining);
      ProgressStep(s.results, remaining, list, k);
      list := list + [s.results[k]];
      remaining := remaining - {k};
    }
    r := Ok(ResultList(list));
  }

  /** The state of the selection loop: `list` holds the newest results taken
      so far, newest first, and `remaining` the keys not yet taken. */
  predicate Progress(results: map<string, TryonResult>, remaining: set<string>, list: seq<TryonResult>) {
    Taken(results, remaining, list) && Ranked(results, remaining, list)
  }

  /** Every stored key is either still remaining or listed exactly once. */
  predicate Taken(results: map<string, TryonResult>, remaining: set<string>, list: seq<TryonResult>) {
    && remaining <= results.Keys
    && |remaining| + |list| == |results|
    && (forall i | 0 <= i < |list| :: list[i].id !in remaining)
    && (forall i, j | 0 <= i < j < |list| :: list[i].id != list[j].id)
    && (forall k | k in results && k !in remaining :: Listed(list, k))
  }

  /** The list holds stored results, newest first, none older than a
      remaining one. */
  predicate Ranked(results: map<string, TryonResult>, remaining: set<string>, list: seq<TryonResult>) {
    && remaining <= results.Keys
    && (forall i | 0 <= i < |list| :: list[i].id in results && results[list[i].id] == list[i])
    && NewestFirst(list)
    && (forall i, k | 0 <= i < |list| && k in remaining :: results[k].createdAt <= list[i].createdAt)
  }

  /** Taking a newest remaining result keeps the loop's state. */
  lemma ProgressStep(results: map<string, TryonResult>, remaining: set<string>, list: seq<TryonResult>, k: string)
    requires ResultsFiledById(results)
    requires Progress(results, remaining, list)
    requires k in remaining
    requires forall c | c in remaining :: results[c].createdAt <= results[k].createdAt
    ensures Progress(results, remaining - {k}, list + [results[k]])
  {
    TakenStep(results, remaining, list, k);
    RankedStep(results, remaining, list, k);
  }

  /** Taking a remaining key moves it from `remaining` to the list. */
  lemma TakenStep(results: map<string, TryonResult>, remaining: set<string>, list: seq<TryonResult>, k: string)
    requires ResultsFiledById(results)
    requires Taken(results, remaining, list)
    requires k in remaining
    ensures Taken(results, remaining - {k}, list + [results[k]])
  {
    var next := results[k];
    var list' := list + [next];
    assert forall i | 0 <= i < |list| :: list'[i] == list[i];
    assert list'[|list|] == next;
    AppendKeepsListed(list, next);
  }

  /** Appending a newest remaining result keeps the list ranked. */
  lemma RankedStep(results: map<string, TryonResult>, remaining: set<string>, list: seq<TryonResult>, k: string)
    requires ResultsFiledById(results)
    requires Ranked(results, remaining, list)
    requires k in remaining
    requires forall c | c in remaining :: results[c].createdAt <= results[k].createdAt
    ensures Ranked(results, remaining - {k}, list + [results[k]])
  {
    var next := results[k];
    var list' := list + [next];
    assert forall i | 0 <= i < |list| :: list'[i] == list[i];
    assert list'[|list|] == next;
    AppendNewest(list, next);
  }

  /** Appending keeps every listed key listed and lists the new one. */
  lemma AppendKeepsListed(list: seq<TryonResult>, next: TryonResult)
    ensures Listed(list + [next], next.id)
    ensures forall k | Listed(list, k) :: Listed(list + [next], k)
  {
    assert (list + [next])[|list|] == next;
    forall k | Listed(list, k) ensures Listed(list + [next], k) {
      var i :| 0 <= i < |list| && list[i].id == k;
      assert (list + [next])[i] == list[i];
    }
  }

  /** Appending a result no newer than any listed one keeps the order. */
  lemma AppendNewest(list: seq<TryonResult>, next: TryonResult)
    requires NewestFirst(list)
    requires forall i | 0 <= i < |list| :: next.createdAt <= list[i].createdAt
    ensures NewestFirst(list + [next])
  {
  }
}
