/**
 * The project procedures: the name derived from the first prompt, the input
 * rules of `create` and `getOne`, the mapping of a failed credit charge to an
 * error code, and the order of `create`'s effects (charge, store the project
 * with its first message, send the run event).
 */
module Projects {
  import opened Common
  import opened Text
  import opened Store
  import opened CodeAgent

  const Untitled := "untitled-project"
  const Ellipsis := "..."
  /** How many words of the prompt the name keeps. */
  const NameWords: nat := 4
  const MaxValueLength: nat := 1000

  datatype ErrorCode = BadRequest | NotFound | TooManyRequests

  /** A `TRPCError`. */
  datatype RpcError = RpcError(code: ErrorCode, message: string)

  /** How the credit charge ended: charged, or threw an `Error`, or threw some other value (the limiter's rejection). */
  datatype Charge = Charged | ThrewError | ThrewOther

  predicate IsNameChar(c: char)
  {
    'a' <= c <= 'z' || '0' <= c <= '9'
  }

  predicate IsHyphen(c: char) { c == '-' }

  /** `.replace(/[^a-z0-9\s]/g, "")`: keeps letters, digits and white space. */
  function Cleaned(s: string): (r: string)
    ensures forall c :: c in r <==> c in s && (IsNameChar(c) || IsSpace(c))
    ensures |r| <= |s|
  {
    if s == [] then []
    else if IsNameChar(s[0]) || IsSpace(s[0]) then [s[0]] + Cleaned(s[1..])
    else Cleaned(s[1..])
  }

  /** The replacement is an in-order filter: it works character by character and never reorders. */
  lemma {:induction false} CleanedAppend(a: string, b: string)
    ensures Cleaned(a + b) == Cleaned(a) + Cleaned(b)
  {
    if a == [] {
      assert a + b == b;
    } else {
      assert (a + b)[0] == a[0] && (a + b)[1..] == a[1..] + b;
      CleanedAppend(a[1..], b);
    }
  }

  /** Text made only of letters, digits and white space is left as it is. */
  lemma {:induction false} CleanedKeeps(s: string)
    requires forall i :: 0 <= i < |s| ==> IsNameChar(s[i]) || IsSpace(s[i])
    ensures Cleaned(s) == s
  {
    if s != [] {
      assert forall i :: 0 <= i < |s[1..]| ==> s[1..][i] == s[i + 1];
      CleanedKeeps(s[1..]);
    }
  }

  /** The words of the prompt: lowered, cleaned, split on white space, empty pieces dropped. */
  function Words(input: string): seq<string>
  {
    DropEmpty(Split(Cleaned(Lower(input)), IsSpace))
  }

  /** `generateProjectName`. */
  function GenerateProjectName(input: string): string
  {
    var words := Take(Words(input), NameWords);
    if |words| > 0 then Join(words, "-") + Ellipsis else Untitled
  }

  /** The zod schema of `create`: between 1 and 1000 UTF-16 code units, as `string.length` counts them. */
  function ValidateValue(value: string): (r: Result<string, RpcError>)
    ensures r.Ok? <==> 1 <= Utf16Length(value) <= MaxValueLength
    ensures r.Ok? ==> r.value == value
    ensures r.Err? ==> r.error.code == BadRequest
  {
    if Utf16Length(value) < 1 then Err(RpcError(BadRequest, "Value is required"))
    else if Utf16Length(value) > MaxValueLength then Err(RpcError(BadRequest, "Value must be at most 1000 characters long"))
    else Ok(value)
  }

  /**
   * The bound is on code units: a value of characters inside the Basic
   * Multilingual Plane may have up to 1000 of them, one made only of
   * characters outside it (emoji, say) at most 500.
   */
  lemma ValidateValueUnits(value: string)
    ensures (forall i :: 0 <= i < |value| ==> value[i] as int <= 0xFFFF) ==>
      (ValidateValue(value).Ok? <==> 1 <= |value| <= MaxValueLength)
    ensures (forall i :: 0 <= i < |value| ==> value[i] as int > 0xFFFF) ==>
      (ValidateValue(value).Ok? <==> 1 <= |value| <= MaxValueLength / 2)
  {
    Utf16LengthBmp(value);
    if forall i :: 0 <= i < |value| ==> value[i] as int > 0xFFFF {
      Utf16LengthAstral(value);
    }
  }

  /** The `catch` around `consumeCredits`. */
  function ChargeError(c: Charge): (r: Option<RpcError>)
    ensures r.None? <==> c == Charged
    ensures c == ThrewError ==> r == Some(RpcError(BadRequest, "Something went wrong"))
    ensures c == ThrewOther ==> r == Some(RpcError(TooManyRequests, "You have run out of credits"))
  {
    match c
    case Charged => None
    case ThrewError => Some(RpcError(BadRequest, "Something went wrong"))
    case ThrewOther => Some(RpcError(TooManyRequests, "You have run out of credits"))
  }

  /** The first project with the id and the user, as the unique lookup returns it. */
  function FindProject(projects: seq<Project>, id: string, userId: string): (r: Option<Project>)
  {
    if projects == [] then None
    else if projects[0].id == id && projects[0].userId == userId then Some(projects[0])
    else FindProject(projects[1..], id, userId)
  }

  /** `getOne`: an empty id is refused by the schema, a missing project is NOT_FOUND. */
  function GetOne(projects: seq<Project>, id: string, userId: string): (r: Result<Project, RpcError>)
  {
    if |id| < 1 then Err(RpcError(BadRequest, "Project ID is required"))
    else match FindProject(projects, id, userId)
      case None => Err(RpcError(NotFound, "Project not found"))
      case Some(p) => Ok(p)
  }

  /** The event queue `inngest.send` writes to. */
  class Outbox {
    var events: seq<RunEvent>

    constructor ()
      ensures events == []
    {
      events := [];
    }

    method Send(e: RunEvent)
      modifies this
      ensures events == old(events) + [e]
    {
      events := events + [e];
    }
  }

  /**
   * `create`: validate, charge, store the project and its first message,
   * then send the run event. `charge` is how the credit charge ends and
   * `freshId` the id the database gives the new project.
   */
  method Create(db: Database, outbox: Outbox, userId: string, value: string, charge: Charge, freshId: string)
    returns (r: Result<Project, RpcError>)
    requires db.Valid()
    modifies db, outbox
    ensures db.Valid()
    ensures ValidateValue(value).Err? ==> r == Err(ValidateValue(value).error)
    ensures ValidateValue(value).Ok? && charge != Charged ==> r == Err(ChargeError(charge).value)
    ensures r.Err? ==>
      && db.projects == old(db.projects) && db.messages == old(db.messages) && db.nextId == old(db.nextId)
      && outbox.events == old(outbox.events)
    ensures r.Ok? <==> ValidateValue(value).Ok? && charge == Charged
    ensures r.Ok? ==>
      && r.value == Project(freshId, userId, GenerateProjectName(value))
      && db.projects == old(db.projects) + [r.value]
      && db.messages == old(db.messages) + [Message(old(db.nextId), freshId, User, ResultKind, value, None, None)]
      && db.nextId == old(db.nextId) + 1
      && outbox.events == old(outbox.events) + [RunEvent(Some(value), freshId)]
  {
    var valid := ValidateValue(value);
    if valid.Err? {
      return Err(valid.error);
    }
    var failure := ChargeError(charge);
    if failure.Some? {
      return Err(failure.value);
    }
    var project, message := db.CreateProject(freshId, userId, GenerateProjectName(value), value);
    outbox.Send(RunEvent(Some(value), freshId));
    r := Ok(project);
  }

  // ---------------------------------------------------------------- lemmas

  /** The name is the default exactly when no letter or digit survives lowering. */
  lemma UntitledWhenNoNameChar(input: string)
    ensures GenerateProjectName(input) == Untitled <==> forall i :: 0 <= i < |input| ==> !IsNameChar(LowerChar(input[i]))
  {
    WordsWhenNameChar(input);
    if Words(input) != [] {
      var name := Join(Take(Words(input), NameWords), "-") + Ellipsis;
      assert name[|name| - 3..] == Ellipsis;
      assert Untitled[|Untitled| - 3..] != Ellipsis;
    }
  }

  /** The prompt has words exactly when some character lowers to a letter or a digit. */
  lemma WordsWhenNameChar(input: string)
    ensures Words(input) == [] <==> forall i :: 0 <= i < |input| ==> !IsNameChar(LowerChar(input[i]))
  {
    var lowered := Lower(input);
    var cleaned := Cleaned(lowered);
    DropEmptySplitNone(cleaned, IsSpace);
    if Words(input) != [] {
      var i :| 0 <= i < |cleaned| && !IsSpace(cleaned[i]);
      assert cleaned[i] in lowered;
      var j :| 0 <= j < |lowered| && lowered[j] == cleaned[i];
      assert IsNameChar(LowerChar(input[j]));
    } else {
      forall i | 0 <= i < |input| ensures !IsNameChar(LowerChar(input[i])) {
        assert lowered[i] in lowered;
      }
    }
  }

  /** Every word is a non-empty run of letters and digits. */
  lemma WordsShape(input: string)
    ensures forall w :: w in Words(input) ==> w != "" && forall j :: 0 <= j < |w| ==> IsNameChar(w[j])
  {
    var cleaned := Cleaned(Lower(input));
    var parts := Split(cleaned, IsSpace);
    SplitPieces(cleaned, IsSpace);
    forall w | w in Words(input) ensures w != "" && forall j :: 0 <= j < |w| ==> IsNameChar(w[j]) {
      assert w in parts;
      var k :| 0 <= k < |parts| && parts[k] == w;
      forall j | 0 <= j < |w| ensures IsNameChar(w[j]) {
        assert !IsSpace(parts[k][j]) && parts[k][j] in cleaned;
      }
    }
  }

  /**
   * A name that is not the default is the first four words (or fewer, when
   * the prompt has fewer) joined by hyphens, then "...": splitting it on the
   * hyphens gives those words back.
   */
  lemma NameKeepsFirstFourWords(input: string)
    requires Words(input) != []
    ensures var name := GenerateProjectName(input);
      && |name| > 3 && name[|name| - 3..] == Ellipsis
      && Split(name[..|name| - 3], IsHyphen) == Take(Words(input), NameWords)
      && 1 <= |Take(Words(input), NameWords)| <= NameWords
  {
    var words := Take(Words(input), NameWords);
    KeptWordsShape(input);
    forall k, j | 0 <= k < |words| && 0 <= j < |words[k]| ensures words[k][j] != '-' {
      assert words[k][j] in words[k];
    }
    SplitJoin(words, '-', IsHyphen);
    var body := Join(words, "-");
    JoinCons(words, "-");
    assert |body| >= |words[0]| > 0;
    var name := body + Ellipsis;
    assert name[..|name| - 3] == body;
  }

  /** The characters of a join are those of the pieces and of the separator. */
  lemma {:induction false} JoinChars(parts: seq<string>, sep: string, c: char)
    requires c in Join(parts, sep)
    ensures c in sep || exists k :: 0 <= k < |parts| && c in parts[k]
  {
    if |parts| > 1 {
      JoinCons(parts, sep);
      if c !in parts[0] && c !in sep {
        JoinChars(parts[1..], sep, c);
        var k :| 0 <= k < |parts[1..]| && c in parts[1..][k];
        assert c in parts[k + 1];
      }
    }
  }

  /**
   * Hyphen-joined non-empty words without hyphens: the result neither starts
   * nor ends with a hyphen and never has two in a row.
   */
  lemma {:induction false} JoinHyphens(parts: seq<string>)
    requires |parts| >= 1
    requires forall k :: 0 <= k < |parts| ==> parts[k] != "" && '-' !in parts[k]
    ensures var r := Join(parts, "-");
      && r != "" && r[0] != '-' && r[|r| - 1] != '-'
      && forall i :: 0 <= i < |r| - 1 ==> !(r[i] == '-' && r[i + 1] == '-')
  {
    JoinCons(parts, "-");
    var p := parts[0];
    assert p[0] in p && p[|p| - 1] in p;
    if |parts| > 1 {
      JoinHyphens(parts[1..]);
      var rest := Join(parts[1..], "-");
      var r := p + "-" + rest;
      assert rest[|rest| - 1] == r[|r| - 1] && p[0] == r[0];
      forall i | 0 <= i < |r| - 1 ensures !(r[i] == '-' && r[i + 1] == '-') {
        if i < |p| {
          assert r[i] == p[i] && p[i] in p;
        } else if i > |p| {
          assert r[i] == rest[i - |p| - 1] && r[i + 1] == rest[i - |p|];
        } else {
          assert r[i + 1] == rest[0];
        }
      }
    }
  }

  /** The words the name keeps: non-empty, letters and digits only, so without hyphens. */
  lemma KeptWordsShape(input: string)
    ensures var words := Take(Words(input), NameWords);
      forall k :: 0 <= k < |words| ==>
        && words[k] != "" && '-' !in words[k]
        && forall j :: 0 <= j < |words[k]| ==> IsNameChar(words[k][j])
  {
    WordsShape(input);
    var words := Take(Words(input), NameWords);
    forall k | 0 <= k < |words|
      ensures words[k] != "" && '-' !in words[k] && forall j :: 0 <= j < |words[k]| ==> IsNameChar(words[k][j])
    {
      assert words[k] in Words(input);
    }
  }

  /** The name uses only lowercase letters, digits, '-' and '.'. */
  lemma NameCharset(input: string)
    ensures var name := GenerateProjectName(input);
      forall i :: 0 <= i < |name| ==> IsNameChar(name[i]) || name[i] == '-' || name[i] == '.'
  {
    var words := Take(Words(input), NameWords);
    if |words| > 0 {
      KeptWordsShape(input);
      var body := Join(words, "-");
      var name := body + Ellipsis;
      forall i | 0 <= i < |name| ensures IsNameChar(name[i]) || name[i] == '-' || name[i] == '.' {
        if i < |body| {
          assert name[i] == body[i] && body[i] in body;
          JoinChars(words, "-", body[i]);
          if body[i] != '-' {
            var k :| 0 <= k < |words| && body[i] in words[k];
            var j :| 0 <= j < |words[k]| && words[k][j] == body[i];
          }
        } else {
          assert name[i] == Ellipsis[i - |body|];
        }
      }
    }
  }

  /** The hyphens of the name only separate words: none leads and no two are adjacent. */
  lemma NameHyphens(input: string)
    ensures var name := GenerateProjectName(input);
      && name[0] != '-'
      && forall i :: 0 <= i < |name| - 1 ==> !(name[i] == '-' && name[i + 1] == '-')
  {
    var words := Take(Words(input), NameWords);
    if |words| > 0 {
      KeptWordsShape(input);
      JoinHyphens(words);
      var body := Join(words, "-");
      var name := body + Ellipsis;
      forall i | 0 <= i < |name| - 1 ensures !(name[i] == '-' && name[i + 1] == '-') {
        if i < |body| - 1 {
          assert name[i] == body[i] && name[i + 1] == body[i + 1];
        } else if i >= |body| {
          assert name[i] == '.';
        }
      }
    }
  }

  /** `getOne` finds exactly the project with that id that belongs to the user. */
  lemma {:induction false} FindProjectSpec(projects: seq<Project>, id: string, userId: string)
    ensures FindProject(projects, id, userId).Some? ==>
      var p := FindProject(projects, id, userId).value; p in projects && p.id == id && p.userId == userId
    ensures FindProject(projects, id, userId).None? <==> forall p :: p in projects ==> !(p.id == id && p.userId == userId)
  {
    if projects != [] {
      FindProjectSpec(projects[1..], id, userId);
      assert forall p :: p in projects <==> p == projects[0] || p in projects[1..];
    }
  }

  lemma GetOneSpec(projects: seq<Project>, id: string, userId: string)
    ensures GetOne(projects, id, userId).Ok? ==>
      var p := GetOne(projects, id, userId).value; p in projects && p.id == id && p.userId == userId
    ensures GetOne(projects, id, userId) == Err(RpcError(NotFound, "Project not found")) <==>
      id != "" && forall p :: p in projects ==> !(p.id == id && p.userId == userId)
    ensures GetOne(projects, id, userId).Err? && GetOne(projects, id, userId).error.code == BadRequest <==> id == ""
  {
    FindProjectSpec(projects, id, userId);
  }
}
