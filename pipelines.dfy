/**
 * The pipeline list page (src/pages/Pipelines.tsx): the list of pipelines
 * held in the page's state, the three handlers that replace it (run,
 * the timer's completion step, delete), and the filtered view computed
 * from the search box and the two selectors.
 */
module Pipelines {
  import opened Wrappers
  import opened PipelineTypes
  import Seqs
  import Text

  // ---------------------------------------------------------------------
  // Query

  /** The search box matches the lower-cased name, or else the lower-cased description if there is one. */
  predicate MatchesSearch(p: Pipeline, query: string)
  {
    Text.SearchMatches(p.name, query) ||
    (p.description.Some? && Text.SearchMatches(p.description.value, query))
  }

  predicate MatchesType(p: Pipeline, typeFilter: string)
  {
    TypeSelected(p.kind, typeFilter)
  }

  /** A missing status (`undefined`) equals no selector value, so it passes only `'all'`. */
  predicate MatchesStatus(p: Pipeline, statusFilter: string)
  {
    match p.status
    case None => statusFilter == All
    case Some(s) => StatusSelected(s, statusFilter)
  }

  predicate Matches(p: Pipeline, query: string, typeFilter: string, statusFilter: string)
  {
    MatchesSearch(p, query) && MatchesType(p, typeFilter) && MatchesStatus(p, statusFilter)
  }

  function BySearch(query: string): Pipeline -> bool { p => MatchesSearch(p, query) }
  function ByType(typeFilter: string): Pipeline -> bool { p => MatchesType(p, typeFilter) }
  function ByStatus(statusFilter: string): Pipeline -> bool { p => MatchesStatus(p, statusFilter) }

  /** `filteredPipelines`: the pipelines that pass all three conditions, in list order. */
  function FilteredPipelines(ps: seq<Pipeline>, query: string, typeFilter: string, statusFilter: string): (r: seq<Pipeline>)
    ensures forall p :: p in r <==> p in ps && Matches(p, query, typeFilter, statusFilter)
    ensures Seqs.SubsequenceOf(r, ps)
  {
    Seqs.Filter(ps, p => Matches(p, query, typeFilter, statusFilter))
  }

  /** Each pipeline appears in the view as often as in the list when it matches, and not at all otherwise. */
  lemma FilteredPipelinesCount(ps: seq<Pipeline>, query: string, typeFilter: string, statusFilter: string, p: Pipeline)
    ensures multiset(FilteredPipelines(ps, query, typeFilter, statusFilter))[p] ==
            if Matches(p, query, typeFilter, statusFilter) then multiset(ps)[p] else 0
  {
    Seqs.FilterMultiset(ps, p => Matches(p, query, typeFilter, statusFilter), p);
  }

  /** The page's initial filters (empty search, both selectors on `'all'`) show the whole list. */
  lemma NoFilterShowsAll(ps: seq<Pipeline>)
    ensures FilteredPipelines(ps, "", All, All) == ps
  {
    forall p | p in ps ensures Matches(p, "", All, All) {
      Text.EmptyQueryMatches(p.name);
    }
    Seqs.FilterKeepsAll(ps, p => Matches(p, "", All, All));
  }

  /** Without a status, a pipeline passes only the `'all'` status filter. */
  lemma NoStatusOnlyUnderAll(p: Pipeline, query: string, typeFilter: string, statusFilter: string)
    requires p.status.None?
    ensures Matches(p, query, typeFilter, statusFilter) ==> statusFilter == All
  {
  }

  /** Without a description, only the name is searched. */
  lemma NoDescriptionSearchesName(p: Pipeline, query: string)
    requires p.description.None?
    ensures MatchesSearch(p, query) <==> Text.SearchMatches(p.name, query)
  {
  }

  /** Selecting a status by its name keeps exactly the pipelines in that status. */
  lemma StatusFilterSelects(p: Pipeline, s: PipelineStatus)
    ensures MatchesStatus(p, StatusName(s)) <==> p.status == Some(s)
  {
  }

  /** Selecting a runner kind by its name keeps exactly the pipelines of that kind. */
  lemma TypeFilterSelects(p: Pipeline, t: PipelineType)
    ensures MatchesType(p, TypeName(t)) <==> p.kind == t
  {
  }

  /** A query that is already lower case matches the same pipelines as any query that lowers to it. */
  lemma SearchIgnoresQueryCase(p: Pipeline, query: string)
    ensures MatchesSearch(p, Text.Lower(query)) <==> MatchesSearch(p, query)
  {
    Text.SearchIgnoresQueryCase(p.name, query);
    if p.description.Some? {
      Text.SearchIgnoresQueryCase(p.description.value, query);
    }
  }

  /** The three conditions may be applied one after another, in any order, with the same result. */
  lemma FilterOrderIrrelevant(ps: seq<Pipeline>, query: string, typeFilter: string, statusFilter: string)
    ensures var all := FilteredPipelines(ps, query, typeFilter, statusFilter);
      && Seqs.Filter(Seqs.Filter(Seqs.Filter(ps, BySearch(query)), ByType(typeFilter)), ByStatus(statusFilter)) == all
      && Seqs.Filter(Seqs.Filter(Seqs.Filter(ps, BySearch(query)), ByStatus(statusFilter)), ByType(typeFilter)) == all
      && Seqs.Filter(Seqs.Filter(Seqs.Filter(ps, ByType(typeFilter)), BySearch(query)), ByStatus(statusFilter)) == all
      && Seqs.Filter(Seqs.Filter(Seqs.Filter(ps, ByType(typeFilter)), ByStatus(statusFilter)), BySearch(query)) == all
      && Seqs.Filter(Seqs.Filter(Seqs.Filter(ps, ByStatus(statusFilter)), BySearch(query)), ByType(typeFilter)) == all
      && Seqs.Filter(Seqs.Filter(Seqs.Filter(ps, ByStatus(statusFilter)), ByType(typeFilter)), BySearch(query)) == all
  {
    var q, t, s := BySearch(query), ByType(typeFilter), ByStatus(statusFilter);
    var all := p => Matches(p, query, typeFilter, statusFilter);
    var qt, ts, qs := p => q(p) && t(p), p => t(p) && s(p), p => q(p) && s(p);
    Seqs.FilterFuse(ps, q, t, qt);
    Seqs.FilterFuse(ps, t, q, qt);
    Seqs.FilterFuse(ps, t, s, ts);
    Seqs.FilterFuse(ps, s, t, ts);
    Seqs.FilterFuse(ps, q, s, qs);
    Seqs.FilterFuse(ps, s, q, qs);
    Seqs.FilterFuse(ps, qt, s, all);
    Seqs.FilterFuse(ps, ts, q, all);
    Seqs.FilterFuse(ps, qs, t, all);
  }

  /** What the page says when the view is empty (src/pages/Pipelines.tsx:315-329). */
  datatype EmptyHint = AdjustFilters | CreateFirst

  function EmptyState(ps: seq<Pipeline>, query: string, typeFilter: string, statusFilter: string): Option<EmptyHint>
  {
    if |FilteredPipelines(ps, query, typeFilter, statusFilter)| != 0 then None
    else if query != "" || typeFilter != All || statusFilter != All then Some(AdjustFilters)
    else Some(CreateFirst)
  }

  /** "Create your first pipeline" is shown exactly when there are no pipelines and no filter is set. */
  lemma CreateFirstOnlyWhenEmpty(ps: seq<Pipeline>, query: string, typeFilter: string, statusFilter: string)
    ensures EmptyState(ps, query, typeFilter, statusFilter) == Some(CreateFirst) <==>
            ps == [] && query == "" && typeFilter == All && statusFilter == All
  {
  }

  // ---------------------------------------------------------------------
  // Updates

  /** What `handleRunPipeline` does at once: every pipeline with the id is marked running. */
  function Started(ps: seq<Pipeline>, id: string): (r: seq<Pipeline>)
    ensures |r| == |ps|
    ensures forall i :: 0 <= i < |ps| ==>
      r[i] == if ps[i].id == id then ps[i].(status := Some(Running)) else ps[i]
  {
    Seqs.Map(ps, (p: Pipeline) => if p.id == id then p.(status := Some(Running)) else p)
  }

  /** What the timer does three seconds later: every pipeline with the id succeeded, last run at `now`. */
  function Completed(ps: seq<Pipeline>, id: string, now: Timestamp): (r: seq<Pipeline>)
    ensures |r| == |ps|
    ensures forall i :: 0 <= i < |ps| ==>
      r[i] == if ps[i].id == id then ps[i].(status := Some(Success), lastRun := Some(now)) else ps[i]
  {
    Seqs.Map(ps, (p: Pipeline) => if p.id == id then p.(status := Some(Success), lastRun := Some(now)) else p)
  }

  /** What `handleDeletePipeline` does: the pipelines with the id are dropped, the others keep their order. */
  function Deleted(ps: seq<Pipeline>, id: string): (r: seq<Pipeline>)
    ensures forall p :: p in r <==> p in ps && p.id != id
    ensures Seqs.SubsequenceOf(r, ps)
  {
    Seqs.Filter(ps, (p: Pipeline) => p.id != id)
  }

  /** Deleting removes exactly the pipelines with the id, each other one as often as it was there. */
  lemma DeletedCount(ps: seq<Pipeline>, id: string, p: Pipeline)
    ensures multiset(Deleted(ps, id))[p] == if p.id == id then 0 else multiset(ps)[p]
  {
    Seqs.FilterMultiset(ps, (p: Pipeline) => p.id != id, p);
  }

  /** Deleting an id that is not in the list leaves the list as it is. */
  lemma DeleteAbsent(ps: seq<Pipeline>, id: string)
    requires forall p :: p in ps ==> p.id != id
    ensures Deleted(ps, id) == ps
  {
    Seqs.FilterKeepsAll(ps, (p: Pipeline) => p.id != id);
  }

  /** Running an id again while it is running changes nothing: there is no "already running" error. */
  lemma StartedIdempotent(ps: seq<Pipeline>, id: string)
    ensures Started(Started(ps, id), id) == Started(ps, id)
  {
  }

  /** The completion step overwrites what the immediate step did. */
  lemma CompletedAfterStarted(ps: seq<Pipeline>, id: string, now: Timestamp)
    ensures Completed(Started(ps, id), id, now) == Completed(ps, id, now)
  {
  }

  /** A completion whose pipeline was deleted in the meantime changes nothing. */
  lemma CompletedAfterDeleted(ps: seq<Pipeline>, id: string, now: Timestamp)
    ensures Completed(Deleted(ps, id), id, now) == Deleted(ps, id)
  {
  }

  /** The card's run button is enabled unless the pipeline is running (src/pages/Pipelines.tsx:295). */
  predicate RunButtonEnabled(p: Pipeline)
  {
    p.status != Some(Running)
  }

  /** Between the immediate step and the completion step, the button of every pipeline with the id is disabled. */
  lemma RunDisablesButton(ps: seq<Pipeline>, id: string, now: Timestamp)
    ensures forall p :: p in Started(ps, id) && p.id == id ==> !RunButtonEnabled(p)
    ensures forall p :: p in Completed(Started(ps, id), id, now) && p.id == id ==> RunButtonEnabled(p)
  {
  }

  /** The page's list of pipelines, replaced by the handlers. */
  class PipelineList {
    var pipelines: seq<Pipeline>

    constructor (initial: seq<Pipeline>)
      ensures pipelines == initial
    {
      pipelines := initial;
    }

    /** `handleRunPipeline`, its immediate step; the dropdown's "Ejecutar" calls it without a guard. */
    method Run(id: string)
      modifies this
      ensures pipelines == Started(old(pipelines), id)
      ensures |pipelines| == |old(pipelines)|
      ensures forall i :: 0 <= i < |pipelines| && pipelines[i].id == id ==> pipelines[i].status == Some(Running)
      ensures forall i :: 0 <= i < |pipelines| && old(pipelines)[i].id != id ==> pipelines[i] == old(pipelines)[i]
    {
      pipelines := Started(pipelines, id);
    }

    /** The card's run button: only a pipeline that is not running can be started this way. */
    method RunFromButton(p: Pipeline)
      requires p in pipelines && RunButtonEnabled(p)
      modifies this
      ensures pipelines == Started(old(pipelines), p.id)
    {
      Run(p.id);
    }

    /** The completion step the timer of `handleRunPipeline` schedules; `now` is the clock reading. */
    method Complete(id: string, now: Timestamp)
      modifies this
      ensures pipelines == Completed(old(pipelines), id, now)
      ensures |pipelines| == |old(pipelines)|
      ensures forall i :: 0 <= i < |pipelines| && pipelines[i].id == id ==>
        pipelines[i].status == Some(Success) && pipelines[i].lastRun == Some(now)
      ensures forall i :: 0 <= i < |pipelines| && old(pipelines)[i].id != id ==> pipelines[i] == old(pipelines)[i]
    {
      pipelines := Completed(pipelines, id, now);
    }

    /** `handleDeletePipeline`. */
    method Delete(id: string)
      modifies this
      ensures pipelines == Deleted(old(pipelines), id)
      ensures forall p :: p in pipelines ==> p.id != id
      ensures forall p :: p in old(pipelines) && p.id != id ==> p in pipelines
    {
      pipelines := Deleted(pipelines, id);
    }

    /** `filteredPipelines` over the current list. */
    function Filtered(query: string, typeFilter: string, statusFilter: string): (r: seq<Pipeline>)
      reads this
      ensures forall p :: p in r <==> p in pipelines && Matches(p, query, typeFilter, statusFilter)
    {
      FilteredPipelines(pipelines, query, typeFilter, statusFilter)
    }
  }
}
