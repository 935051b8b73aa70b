/** The project store: a single shared object that owns the list of projects
    and the list of listeners, and hands every listener a copy of the whole
    list each time a project is added. */
module ProjectStore {

  datatype ProjectStatus = Active | Finished

  datatype Project = Project(
    id: string,
    title: string,
    description: string,
    people: int,
    status: ProjectStatus)

  /** A registered callback, known only by its identity: what a callback does
      with the list it receives is outside the store. */
  datatype Listener = Listener(handle: nat)

  /** One call of a listener: its position in the listener list, the listener,
      and the copy of the project list it was handed. */
  datatype Notification = Notification(index: nat, listener: Listener, snapshot: seq<Project>)

  /** The calls one round of notification makes: every listener once, in
      registration order, each with the same snapshot. */
  function Deliveries(listeners: seq<Listener>, snapshot: seq<Project>): (r: seq<Notification>)
    ensures |r| == |listeners|
    ensures forall k :: 0 <= k < |r| ==> r[k] == Notification(k, listeners[k], snapshot)
  {
    if listeners == [] then []
    else
      var n := |listeners| - 1;
      Deliveries(listeners[..n], snapshot) + [Notification(n, listeners[n], snapshot)]
  }

  /** Every listener is called exactly once in a round: the only call that
      names position `k` is the `k`-th one. */
  lemma DeliveredOnceEach(listeners: seq<Listener>, snapshot: seq<Project>, k: nat)
    requires k < |listeners|
    ensures Deliveries(listeners, snapshot)[k].listener == listeners[k]
    ensures forall j :: 0 <= j < |listeners| && Deliveries(listeners, snapshot)[j].index == k ==> j == k
  {
  }

  class ProjectState {
    /** The callbacks, in registration order (the `State<T>` base class). */
    var listeners: seq<Listener>
    var projects: seq<Project>
    /** Every listener call made so far, oldest first. */
    ghost var log: seq<Notification>

    /** Every project is still `Active`, since no code of the program writes a
        project's status; every call names a registered listener by its
        position; every snapshot handed out is a prefix of the current list,
        and later snapshots extend earlier ones. */
    ghost predicate Valid()
      reads this
    {
      (forall i :: 0 <= i < |projects| ==> projects[i].status == Active) &&
      (forall k :: 0 <= k < |log| ==>
        log[k].index < |listeners| && listeners[log[k].index] == log[k].listener &&
        log[k].snapshot <= projects) &&
      (forall j, k :: 0 <= j < k < |log| ==> log[j].snapshot <= log[k].snapshot)
    }

    constructor ()
      ensures Valid()
      ensures projects == [] && listeners == [] && log == []
    {
      listeners := [];
      projects := [];
      log := [];
    }

    /** Registers a callback at the end of the list; registering the same
        callback twice registers it twice. */
    method AddListener(listener: Listener)
      requires Valid()
      modifies this
      ensures Valid()
      ensures listeners == old(listeners) + [listener]
      ensures projects == old(projects) && log == old(log)
    {
      listeners := listeners + [listener];
    }

    /** Appends a new `Active` project with the given id, then calls every
        listener in registration order with a copy of the whole list. */
    method AddProject(id: string, title: string, description: string, numOfPeople: int)
      requires Valid()
      modifies this
      ensures Valid()
      ensures projects == old(projects) + [Project(id, title, description, numOfPeople, Active)]
      ensures listeners == old(listeners)
      ensures log == old(log) + Deliveries(listeners, projects)
    {
      projects := projects + [Project(id, title, description, numOfPeople, Active)];
      var i := 0;
      while i < |listeners|
        invariant 0 <= i <= |listeners|
        invariant listeners == old(listeners)
        invariant projects == old(projects) + [Project(id, title, description, numOfPeople, Active)]
        invariant log == old(log) + Deliveries(listeners[..i], projects)
      {
        // the listener receives `projects.slice()`, a new list of the same projects
        log := log + [Notification(i, listeners[i], projects)];
        i := i + 1;
      }
      assert listeners[..i] == listeners;
      ExtendedLogStaysValid(old(log), old(projects), projects, Deliveries(listeners, projects));
    }

    /** Appending a round of calls that all carry `projects`, after growing
        the list from `before`, keeps the snapshot part of `Valid`. */
    static lemma ExtendedLogStaysValid(
      oldLog: seq<Notification>, before: seq<Project>, projects: seq<Project>, round: seq<Notification>)
      requires forall k :: 0 <= k < |oldLog| ==> oldLog[k].snapshot <= before
      requires forall j, k :: 0 <= j < k < |oldLog| ==> oldLog[j].snapshot <= oldLog[k].snapshot
      requires before <= projects
      requires forall k :: 0 <= k < |round| ==> round[k].snapshot == projects
      ensures forall k :: 0 <= k < |oldLog + round| ==> (oldLog + round)[k].snapshot <= projects
      ensures forall j, k :: 0 <= j < k < |oldLog + round| ==>
        (oldLog + round)[j].snapshot <= (oldLog + round)[k].snapshot
    {
      var log := oldLog + round;
      forall j, k | 0 <= j < k < |log| ensures log[j].snapshot <= log[k].snapshot {
        if k < |oldLog| {
          assert log[j] == oldLog[j] && log[k] == oldLog[k];
        } else if j < |oldLog| {
          assert log[j].snapshot <= before;
        }
      }
    }
  }

  /** The holder of the single store: the source's static `instance` field. */
  class ProjectStateHolder {
    var instance: ProjectState?

    ghost predicate Valid()
      reads this, instance
    {
      instance != null ==> instance.Valid()
    }

    constructor ()
      ensures Valid() && instance == null
    {
      instance := null;
    }

    /** Creates the store on the first call and returns that same store on
        every later call. */
    method GetInstance() returns (s: ProjectState)
      requires Valid()
      modifies this
      ensures Valid() && instance == s
      ensures old(instance) != null ==> s == old(instance)
      ensures old(instance) == null ==> fresh(s) && s.projects == [] && s.listeners == [] && s.log == []
    {
      if instance != null {
        return instance;
      }
      instance := new ProjectState();
      return instance;
    }
  }

  /** Two calls of `GetInstance` give the same store, so a project added
      through one reference is seen through the other. */
  method GetInstanceTwice(holder: ProjectStateHolder) returns (first: ProjectState, second: ProjectState)
    requires holder.Valid()
    modifies holder
    ensures first == second && holder.instance == first && holder.Valid()
  {
    first := holder.GetInstance();
    second := holder.GetInstance();
  }
}
