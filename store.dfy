/**
 * The rows the core reads and writes through the database client: projects,
 * conversation messages with optional progress fields and an optional
 * fragment. The message table is kept in creation order, which is the
 * `createdAt` order every query of the core sorts by; a message's id is
 * handed out by a counter.
 */
module Store {
  import opened Common
  import opened FileMap

  datatype Role = User | Assistant

  datatype Kind = ResultKind | ErrorKind | InProgressKind

  datatype Progress = Progress(step: string, current: int, total: int)

  /** A saved generation: its preview address, its title and the generated files. */
  datatype Fragment = Fragment(sandboxUrl: string, title: string, files: Files)

  datatype Message = Message(
    id: nat,
    projectId: string,
    role: Role,
    kind: Kind,
    content: string,
    progress: Option<Progress>,
    fragment: Option<Fragment>)

  datatype Project = Project(id: string, userId: string, name: string)

  /** How many earlier RESULT messages the history query takes. */
  const HistoryLimit: nat := 10

  /** The `where` of the progress queries: the project's assistant IN_PROGRESS messages. */
  predicate IsProgressOf(m: Message, projectId: string)
  {
    m.projectId == projectId && m.role == Assistant && m.kind == InProgressKind
  }

  /** `message.updateMany` on the progress messages of a project: each of them gets `p`, the rest stay. */
  function WithProgress(ms: seq<Message>, projectId: string, p: Progress): (r: seq<Message>)
    ensures |r| == |ms|
  {
    if ms == [] then []
    else
      var m := if IsProgressOf(ms[0], projectId) then ms[0].(progress := Some(p)) else ms[0];
      [m] + WithProgress(ms[1..], projectId, p)
  }

  /** `message.deleteMany` on the progress messages of a project. */
  function WithoutProgress(ms: seq<Message>, projectId: string): (r: seq<Message>)
    ensures |r| <= |ms|
  {
    if ms == [] then []
    else if IsProgressOf(ms[0], projectId) then WithoutProgress(ms[1..], projectId)
    else [ms[0]] + WithoutProgress(ms[1..], projectId)
  }

  /** The project's RESULT messages, oldest first. */
  function Results(ms: seq<Message>, projectId: string): (r: seq<Message>)
  {
    if ms == [] then []
    else if ms[0].projectId == projectId && ms[0].kind == ResultKind then [ms[0]] + Results(ms[1..], projectId)
    else Results(ms[1..], projectId)
  }

  /**
   * The history query: RESULT messages of the project ordered by creation
   * time ascending with `take: 10`, so the OLDEST ten.
   */
  function ResultHistory(ms: seq<Message>, projectId: string): seq<Message>
  {
    Take(Results(ms, projectId), HistoryLimit)
  }

  // ---------------------------------------------------------------- lemmas

  /** The update sets the progress of exactly the project's progress messages and keeps every position. */
  lemma {:induction false} WithProgressAt(ms: seq<Message>, projectId: string, p: Progress, i: nat)
    requires i < |ms|
    ensures WithProgress(ms, projectId, p)[i] == if IsProgressOf(ms[i], projectId) then ms[i].(progress := Some(p)) else ms[i]
  {
    if i > 0 {
      WithProgressAt(ms[1..], projectId, p, i - 1);
    }
  }

  /** The delete keeps exactly the messages that are not progress messages of the project. */
  lemma {:induction false} WithoutProgressMembers(ms: seq<Message>, projectId: string)
    ensures forall m :: m in WithoutProgress(ms, projectId) <==> m in ms && !IsProgressOf(m, projectId)
  {
    if ms != [] {
      WithoutProgressMembers(ms[1..], projectId);
      assert forall m :: m in ms <==> m == ms[0] || m in ms[1..];
    }
  }

  /** The RESULT query returns exactly the project's RESULT messages. */
  lemma {:induction false} ResultsMembers(ms: seq<Message>, projectId: string)
    ensures forall m :: m in Results(ms, projectId) <==> m in ms && m.projectId == projectId && m.kind == ResultKind
  {
    if ms != [] {
      ResultsMembers(ms[1..], projectId);
      assert forall m :: m in ms <==> m == ms[0] || m in ms[1..];
    }
  }

  /** Deleting the progress messages forgets every progress update made to them. */
  lemma {:induction false} DeleteAfterUpdate(ms: seq<Message>, projectId: string, p: Progress)
    ensures WithoutProgress(WithProgress(ms, projectId, p), projectId) == WithoutProgress(ms, projectId)
  {
    if ms != [] {
      DeleteAfterUpdate(ms[1..], projectId, p);
      assert WithProgress(ms, projectId, p)[1..] == WithProgress(ms[1..], projectId, p);
    }
  }

  lemma {:induction false} WithProgressAppend(ms: seq<Message>, m: Message, projectId: string, p: Progress)
    ensures WithProgress(ms + [m], projectId, p) ==
      WithProgress(ms, projectId, p) + [if IsProgressOf(m, projectId) then m.(progress := Some(p)) else m]
  {
    if ms == [] {
      assert [m][1..] == [];
    } else {
      assert (ms + [m])[1..] == ms[1..] + [m];
      WithProgressAppend(ms[1..], m, projectId, p);
    }
  }

  lemma {:induction false} WithoutProgressAppend(ms: seq<Message>, m: Message, projectId: string)
    ensures WithoutProgress(ms + [m], projectId) ==
      WithoutProgress(ms, projectId) + if IsProgressOf(m, projectId) then [] else [m]
  {
    if ms == [] {
      assert [m][1..] == [];
    } else {
      assert (ms + [m])[1..] == ms[1..] + [m];
      WithoutProgressAppend(ms[1..], m, projectId);
    }
  }

  lemma {:induction false} ResultsAppend(ms: seq<Message>, m: Message, projectId: string)
    ensures Results(ms + [m], projectId) ==
      Results(ms, projectId) + if m.projectId == projectId && m.kind == ResultKind then [m] else []
  {
    if ms == [] {
      assert [m][1..] == [];
    } else {
      assert (ms + [m])[1..] == ms[1..] + [m];
      ResultsAppend(ms[1..], m, projectId);
    }
  }

  /**
   * Once a project has more than ten RESULT messages, the newest of them is
   * not part of the history the agent is given.
   */
  lemma NewestResultLeftOut(ms: seq<Message>, m: Message, projectId: string)
    requires |Results(ms, projectId)| >= HistoryLimit
    requires m !in ms && m.projectId == projectId && m.kind == ResultKind
    ensures |ResultHistory(ms + [m], projectId)| == HistoryLimit
    ensures m !in ResultHistory(ms + [m], projectId)
  {
    ResultsAppend(ms, m, projectId);
    var rs := Results(ms, projectId);
    ResultsMembers(ms, projectId);
    assert ResultHistory(ms + [m], projectId) == (rs + [m])[..HistoryLimit] == rs[..HistoryLimit];
    assert m !in rs;
  }

  /** The database: projects and messages, plus the counter that numbers messages. */
  class Database {
    var projects: seq<Project>
    var messages: seq<Message>
    var nextId: nat

    /** Every stored message has an id below the counter, so a new id is fresh. */
    ghost predicate Valid()
      reads this
    {
      forall i :: 0 <= i < |messages| ==> messages[i].id < nextId
    }

    constructor ()
      ensures Valid() && projects == [] && messages == [] && nextId == 0
    {
      projects, messages, nextId := [], [], 0;
    }

    /** `message.create`. */
    method CreateMessage(projectId: string, role: Role, kind: Kind, content: string,
                         progress: Option<Progress>, fragment: Option<Fragment>) returns (m: Message)
      requires Valid()
      modifies this
      ensures Valid()
      ensures m == Message(old(nextId), projectId, role, kind, content, progress, fragment)
      ensures messages == old(messages) + [m] && nextId == old(nextId) + 1
      ensures projects == old(projects)
    {
      m := Message(nextId, projectId, role, kind, content, progress, fragment);
      messages := messages + [m];
      nextId := nextId + 1;
    }

    /** `message.updateMany` on the project's progress messages. */
    method UpdateProgress(projectId: string, p: Progress)
      requires Valid()
      modifies this`messages
      ensures Valid()
      ensures messages == WithProgress(old(messages), projectId, p)
    {
      ghost var before := messages;
      messages := WithProgress(messages, projectId, p);
      forall i | 0 <= i < |messages| ensures messages[i].id < nextId {
        WithProgressAt(before, projectId, p, i);
      }
    }

    /** `message.deleteMany` on the project's progress messages. */
    method DeleteProgress(projectId: string)
      requires Valid()
      modifies this`messages
      ensures Valid()
      ensures messages == WithoutProgress(old(messages), projectId)
    {
      ghost var before := messages;
      WithoutProgressMembers(messages, projectId);
      messages := WithoutProgress(messages, projectId);
      forall i | 0 <= i < |messages| ensures messages[i].id < nextId {
        assert messages[i] in before;
      }
    }

    /** `project.create` with one nested initial message. */
    method CreateProject(id: string, userId: string, name: string, firstMessage: string) returns (p: Project, m: Message)
      requires Valid()
      modifies this
      ensures Valid()
      ensures p == Project(id, userId, name) && projects == old(projects) + [p]
      ensures m == Message(old(nextId), id, User, ResultKind, firstMessage, None, None)
      ensures messages == old(messages) + [m] && nextId == old(nextId) + 1
    {
      p := Project(id, userId, name);
      projects := projects + [p];
      m := CreateMessage(id, User, ResultKind, firstMessage, None, None);
    }
  }
}
