/** The two project lists ("active" and "finished"): each registers a
    listener with the store and keeps the projects of its own status from
    every list it is handed. Drawing the list on the page is not modelled. */
module ProjectLists {
  import opened ProjectStore

  datatype ListType = ActiveList | FinishedList

  /** The filter predicate of a list: the "active" list keeps `Active`
      projects, the other keeps `Finished` ones. Every project is kept by
      exactly one of the two lists. */
  predicate Relevant(listType: ListType, p: Project)
    ensures Relevant(listType, p) <==> (listType == ActiveList <==> p.status == Active)
  {
    if listType == ActiveList then p.status == Active else p.status == Finished
  }

  /** `projects.filter(...)` with the list's predicate. */
  function RelevantProjects(listType: ListType, projects: seq<Project>): (r: seq<Project>)
    ensures |r| <= |projects|
    ensures forall p :: p in r <==> p in projects && Relevant(listType, p)
  {
    if projects == [] then []
    else
      (if Relevant(listType, projects[0]) then [projects[0]] else []) +
      RelevantProjects(listType, projects[1..])
  }

  /** Filtering a list with a first element: that element, if relevant,
      followed by the filtered rest. */
  lemma RelevantOfCons(listType: ListType, head: Project, rest: seq<Project>)
    ensures RelevantProjects(listType, [head] + rest) ==
      (if Relevant(listType, head) then [head] else []) + RelevantProjects(listType, rest)
  {
    assert ([head] + rest)[1..] == rest;
  }

  /** The two lists split the projects between them: together they hold
      every project exactly as often as the store does. */
  lemma {:induction false} ListsPartition(projects: seq<Project>)
    ensures multiset(RelevantProjects(ActiveList, projects)) + multiset(RelevantProjects(FinishedList, projects))
         == multiset(projects)
  {
    if projects != [] {
      var head, rest := projects[0], projects[1..];
      ListsPartition(rest);
      assert projects == [head] + rest;
      RelevantOfCons(ActiveList, head, rest);
      RelevantOfCons(FinishedList, head, rest);
      assert multiset(projects) == multiset{head} + multiset(rest);
    }
  }

  /** When every project passes the filter, the list keeps all of them, in
      the store's order. */
  lemma {:induction false} AllRelevantKeepsOrder(listType: ListType, projects: seq<Project>)
    requires forall i :: 0 <= i < |projects| ==> Relevant(listType, projects[i])
    ensures RelevantProjects(listType, projects) == projects
  {
    if projects != [] {
      AllRelevantKeepsOrder(listType, projects[1..]);
    }
  }

  /** When no project passes the filter, the list is empty. */
  lemma {:induction false} NoneRelevantIsEmpty(listType: ListType, projects: seq<Project>)
    requires forall i :: 0 <= i < |projects| ==> !Relevant(listType, projects[i])
    ensures RelevantProjects(listType, projects) == []
  {
    if projects != [] {
      NoneRelevantIsEmpty(listType, projects[1..]);
    }
  }

  /** Since every project the store holds is `Active`, the "active" list
      shows the whole store and the "finished" list stays empty. */
  lemma ListsOfStore(projects: seq<Project>)
    requires forall i :: 0 <= i < |projects| ==> projects[i].status == Active
    ensures RelevantProjects(ActiveList, projects) == projects
    ensures RelevantProjects(FinishedList, projects) == []
  {
    AllRelevantKeepsOrder(ActiveList, projects);
    NoneRelevantIsEmpty(FinishedList, projects);
  }

  /** A list's listener keeps the state it rebuilds on every notification. */
  class ProjectList {
    const listType: ListType
    var assignedProjects: seq<Project>

    /** A new list with no projects. Registering its listener with the store
        is a separate step, `AddListener`. */
    constructor (listType: ListType)
      ensures this.listType == listType && assignedProjects == []
    {
      this.listType := listType;
      assignedProjects := [];
    }

    /** The body of the listener: replaces the list's projects by the
        relevant ones from the list it is handed. */
    method OnProjects(projects: seq<Project>)
      modifies this
      ensures assignedProjects == RelevantProjects(listType, projects)
    {
      assignedProjects := RelevantProjects(listType, projects);
    }
  }
}
