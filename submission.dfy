/** The form's submit path: the three field values are each checked by the
    field validator with their own rules, a new project is added to the store
    only when all three pass, and the three fields are emptied either way. */
module Submission {
  import opened Wrappers
  import opened JsText
  import opened Validation
  import opened ProjectStore
  import opened ProjectLists

  /** The title: required. It passes exactly when it has a visible
      character. */
  function TitleDescriptor(title: string): (r: Validatable)
    ensures r.value == Text(title)
    ensures Valid(r) <==> HasVisible(title)
  {
    var r := Validatable(Text(title), true, None, None, None, None);
    ValidText(r, title);
    r
  }

  /** The description: required, longer than 5. It passes exactly
      when it has a visible character and is longer than 5 code units,
      whitespace included. */
  function DescriptionDescriptor(description: string): (r: Validatable)
    ensures r.value == Text(description)
    ensures Valid(r) <==> HasVisible(description) && Utf16Length(description) > 5
  {
    var r := Validatable(Text(description), true, Some(5), None, None, None);
    ValidText(r, description);
    r
  }

  /** The number of people: required, with `min: 1` and `max: 5`. The value
      checked is the text of the input field, not a number, and no rule reads
      `min` or `max`: it passes exactly when it has a visible character. */
  function PeopleDescriptor(people: string): (r: Validatable)
    ensures r.value == Text(people)
    ensures Valid(r) <==> HasVisible(people)
  {
    var r := Validatable(Text(people), true, None, None, Some(1), Some(5));
    ValidText(r, people);
    r
  }

  /** All three validations pass: a visible title, a visible description
      longer than 5 code units, and a visible people field. The 1..5 range
      of the people field is not checked. */
  predicate Accepts(title: string, description: string, people: string)
    ensures Accepts(title, description, people) <==>
      HasVisible(title) && HasVisible(description) && Utf16Length(description) > 5 && HasVisible(people)
  {
    Valid(TitleDescriptor(title)) && Valid(DescriptionDescriptor(description)) && Valid(PeopleDescriptor(people))
  }

  /** The accepted input: title, description and the people count as a number. */
  datatype UserInput = UserInput(title: string, description: string, people: int)

  /** `gatherUserInput`: validates title, description and people in that
      order, stopping at the first failure. `toNumber` stands for the
      conversion of the people text to a number. */
  method GatherUserInput(title: string, description: string, people: string, toNumber: string -> int)
    returns (r: Option<UserInput>)
    ensures r.Some? <==> Accepts(title, description, people)
    ensures r.Some? ==> r.value == UserInput(title, description, toNumber(people))
  {
    var ok := Validate(TitleDescriptor(title));
    if ok {
      ok := Validate(DescriptionDescriptor(description));
    }
    if ok {
      ok := Validate(PeopleDescriptor(people));
    }
    if !ok {
      return None;
    }
    return Some(UserInput(title, description, toNumber(people)));
  }

  /** The form with its three input fields. */
  class ProjectInput {
    var title: string
    var description: string
    var people: string

    constructor (title: string, description: string, people: string)
      ensures this.title == title && this.description == description && this.people == people
    {
      this.title := title;
      this.description := description;
      this.people := people;
    }

    /** `clearInputField`: all three fields become empty. */
    method ClearInputField()
      modifies this
      ensures title == "" && description == "" && people == ""
    {
      title := "";
      description := "";
      people := "";
    }

    /** `submitHandler`: adds a project with the given id when the fields are
        accepted, leaves the store untouched (no project, no listener call)
        otherwise, and empties the fields in both cases. */
    method SubmitHandler(store: ProjectState, id: string, toNumber: string -> int)
      requires store.Valid()
      modifies this, store
      ensures store.Valid()
      ensures title == "" && description == "" && people == ""
      ensures store.listeners == old(store.listeners)
      ensures Accepts(old(title), old(description), old(people)) ==>
        store.projects == old(store.projects) + [Project(id, old(title), old(description), toNumber(old(people)), Active)] &&
        store.log == old(store.log) + Deliveries(store.listeners, store.projects)
      ensures !Accepts(old(title), old(description), old(people)) ==>
        store.projects == old(store.projects) && store.log == old(store.log)
    {
      var userInput := GatherUserInput(title, description, people, toNumber);
      if userInput.Some? {
        store.AddProject(id, userInput.value.title, userInput.value.description, userInput.value.people);
      }
      ClearInputField();
    }
  }

  /** One submission to a fresh store that has two listeners registered:
      an accepted form leaves exactly the new `Active` project in the store
      and both listeners called once, in order, with that one-project list;
      a rejected form leaves the store empty and calls no listener. */
  method SubmitToFreshStore(title: string, description: string, people: string, toNumber: string -> int)
    returns (projects: seq<Project>, ghost calls: seq<Notification>)
    ensures Accepts(title, description, people) ==>
      projects == [Project("p1", title, description, toNumber(people), Active)]
    ensures !Accepts(title, description, people) ==> projects == []
    ensures forall i :: 0 <= i < |projects| ==> projects[i].status == Active
    ensures calls == if Accepts(title, description, people)
                     then Deliveries([Listener(0), Listener(1)], projects) else []
  {
    var holder := new ProjectStateHolder();
    var store := holder.GetInstance();
    store.AddListener(Listener(0));
    store.AddListener(Listener(1));
    var form := new ProjectInput(title, description, people);
    form.SubmitHandler(store, "p1", toNumber);
    projects, calls := store.projects, store.log;
  }

  /** The "active" and "finished" lists each handle one snapshot of a store
      whose projects are all `Active`: the first shows every project, the
      second none. */
  method ListsFromSnapshot(snapshot: seq<Project>) returns (active: seq<Project>, finished: seq<Project>)
    requires forall i :: 0 <= i < |snapshot| ==> snapshot[i].status == Active
    ensures active == snapshot && finished == []
  {
    var activeList := new ProjectList(ActiveList);
    var finishedList := new ProjectList(FinishedList);
    activeList.OnProjects(snapshot);
    finishedList.OnProjects(snapshot);
    ListsOfStore(snapshot);
    active, finished := activeList.assignedProjects, finishedList.assignedProjects;
  }

  /** Any accepted submission, "Build API", "Initial skeleton", "3" among
      them (`ExampleFieldsPass`): the active list shows the new project and
      the finished list shows nothing. */
  method AcceptedSubmissionScenario(title: string, description: string, people: string, n: int)
    returns (active: seq<Project>, finished: seq<Project>)
    requires Accepts(title, description, people)
    ensures active == [Project("p1", title, description, n, Active)] && finished == []
  {
    var projects, calls := SubmitToFreshStore(title, description, people, _ => n);
    active, finished := ListsFromSnapshot(projects);
  }

  /** Submitting an empty title, whatever the other fields hold: nothing is
      added to the store. The title is a parameter fixed by `requires` so
      that the other two fields stay arbitrary. */
  method RejectedSubmissionScenario(title: string, description: string, people: string)
    returns (projects: seq<Project>)
    requires title == ""
    ensures projects == []
  {
    EmptyTitleRejected(title, description, people);
    ghost var calls;
    projects, calls := SubmitToFreshStore(title, description, people, _ => 0);
  }

  /** Each of the three validations passes on "Build API", "Initial
      skeleton" and "3". The literals are bound to parameters by `requires`
      rather than written into the `ensures`, which keeps the verifier from
      expanding `Trim` and `Utf16Length` on each literal. */
  lemma ExampleFieldsPass(title: string, description: string, people: string)
    requires title == "Build API" && description == "Initial skeleton" && people == "3"
    ensures Valid(TitleDescriptor(title))
    ensures Valid(DescriptionDescriptor(description))
    ensures Valid(PeopleDescriptor(people))
  {
    // each field's first character is visible, and the description has 16 characters
    assert !IsWhitespace(title[0]) && !IsWhitespace(description[0]) && !IsWhitespace(people[0]);
    assert |description| == 16;
  }

  /** An empty title is rejected whatever the other fields hold. */
  lemma EmptyTitleRejected(title: string, description: string, people: string)
    requires title == ""
    ensures !Accepts(title, description, people)
  {
  }

  /** A description of 5 characters within U+FFFF, so 5 code units, is
      rejected under `minLength: 5`, whatever the other fields hold. */
  lemma FiveCharacterDescriptionRejected(title: string, description: string, people: string)
    requires |description| == 5 && forall i :: 0 <= i < 5 ==> description[i] as int <= 0xFFFF
    ensures !Accepts(title, description, people)
  {
    Utf16LengthOfBmp(description);
  }

  /** The people range is not enforced: every one-digit people field passes
      its validation, 0 and 6 to 9 included. */
  lemma PeopleRangeNotEnforced(people: string)
    requires |people| == 1 && '0' <= people[0] <= '9'
    ensures Valid(PeopleDescriptor(people))
  {
    VisibleFirstPassesRequired(PeopleDescriptor(people), people);
  }
}
