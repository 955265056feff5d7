/**
 * The contact form endpoint (app/api/contact/route.ts): validate the posted
 * request, optionally store it, and choose the response. The JSON parse,
 * the environment and the database insert are inputs.
 */
module ContactRoute {
  import opened Wrappers

  /** The posted JSON body; each field is a string or absent. */
  datatype ContactRequest = ContactRequest(
    firstName: Option<string>,
    lastName: Option<string>,
    email: Option<string>,
    phone: Option<string>,
    message: Option<string>,
    countryCode: Option<string>,
    submittedAt: Option<string>)

  /** The JSON body of a response: an error or a confirmation. */
  datatype Body = Error(error: string) | Message(message: string)

  datatype Response = Response(status: int, body: Body)

  /** The two environment variables that enable the store. */
  datatype StoreEnv = StoreEnv(url: Option<string>, serviceKey: Option<string>)

  /** What the insert into `contact_submissions` did, when it was attempted. */
  datatype InsertOutcome =
    | Saved       // the store accepted the row
    | Failed      // the store answered with an error
    | Threw       // the store client raised an exception

  /** A field is present when it is a non-empty string (JavaScript truthiness). */
  predicate Present(field: Option<string>)
  {
    field.Some? && field.value != ""
  }

  /** The five fields the endpoint requires. */
  predicate HasRequiredFields(r: ContactRequest)
  {
    Present(r.firstName) && Present(r.lastName) && Present(r.email)
    && Present(r.phone) && Present(r.message)
  }

  /** The store is used only when both environment variables are non-empty. */
  predicate StoreConfigured(env: StoreEnv)
  {
    Present(env.url) && Present(env.serviceKey)
  }

  // ---------------------------------------------------------------------
  // The email pattern  ^[^\s@]+@[^\s@]+\.[^\s@]+$
  // ---------------------------------------------------------------------

  /** ECMAScript's `\s`: WhiteSpace and LineTerminator code points. */
  predicate IsJsWhitespace(c: char)
  {
    c == '\t' || c == '\n' || c == '\U{000B}' || c == '\U{000C}' || c == '\r' || c == ' '
    || c == '\U{00A0}' || c == '\U{1680}' || ('\U{2000}' <= c <= '\U{200A}')
    || c == '\U{2028}' || c == '\U{2029}' || c == '\U{202F}' || c == '\U{205F}'
    || c == '\U{3000}' || c == '\U{FEFF}'
  }

  /** The character class `[^\s@]`. */
  predicate ClassChar(c: char)
  {
    c != '@' && !IsJsWhitespace(c)
  }

  predicate AllClass(s: string)
  {
    forall k :: 0 <= k < |s| ==> ClassChar(s[k])
  }

  /**
   * The pattern with its split points: s[..at] is the local part, s[at] the
   * '@', s[at+1..dot] the domain, s[dot] the '.', s[dot+1..] the suffix;
   * every part is a non-empty run of `[^\s@]` (the local part's length is
   * bounded below by the caller).
   */
  ghost predicate SplitsAt(s: string, at: int, dot: int)
  {
    0 <= at && at + 1 < dot < |s| - 1 && s[at] == '@' && s[dot] == '.'
    && AllClass(s[..at]) && AllClass(s[at + 1..dot]) && AllClass(s[dot + 1..])
  }

  /** The language of the email pattern. */
  ghost predicate EmailPattern(s: string)
  {
    exists at, dot :: 1 <= at && SplitsAt(s, at, dot)
  }

  /** A deterministic automaton for the pattern; Suffix is the accepting state. */
  datatype State = Start | Local | AfterAt | Domain | AfterDot | Suffix | Dead

  function Step(q: State, c: char): State
  {
    match q
    case Start => if ClassChar(c) then Local else Dead
    case Local => if c == '@' then AfterAt else if ClassChar(c) then Local else Dead
    case AfterAt => if ClassChar(c) then Domain else Dead
    case Domain => if c == '.' then AfterDot else if ClassChar(c) then Domain else Dead
    case AfterDot => if ClassChar(c) then Suffix else Dead
    case Suffix => if ClassChar(c) then Suffix else Dead
    case Dead => Dead
  }

  function Run(q: State, s: string): State
    decreases |s|
  {
    if s == [] then q else Run(Step(q, s[0]), s[1..])
  }

  /** `emailRegex.test(email)`. */
  predicate EmailMatches(email: string)
  {
    Run(Start, email) == Suffix
  }

  /** The rest of the input that each state still accepts. */
  ghost predicate Accepts(q: State, s: string)
  {
    match q
    case Start => exists at, dot :: 1 <= at && SplitsAt(s, at, dot)
    case Local => exists at, dot :: SplitsAt(s, at, dot)
    case AfterAt => exists dot :: 0 < dot < |s| - 1 && s[dot] == '.' && AllClass(s[..dot]) && AllClass(s[dot + 1..])
    case Domain => exists dot :: 0 <= dot < |s| - 1 && s[dot] == '.' && AllClass(s[..dot]) && AllClass(s[dot + 1..])
    case AfterDot => |s| >= 1 && AllClass(s)
    case Suffix => AllClass(s)
    case Dead => false
  }

  /** The automaton accepts exactly the pattern's language. */
  lemma EmailMatchesPattern(email: string)
    ensures EmailMatches(email) <==> EmailPattern(email)
  {
    RunAccepts(Start, email);
  }

  lemma {:induction false} RunAccepts(q: State, s: string)
    ensures Run(q, s) == Suffix <==> Accepts(q, s)
    decreases |s|
  {
    if s == [] {
      EmptyAccepts(q);
    } else {
      RunAccepts(Step(q, s[0]), s[1..]);
      StepAccepts(q, s);
    }
  }

  lemma EmptyAccepts(q: State)
    ensures Accepts(q, []) <==> q == Suffix
  {
  }

  /** Reading one character moves to the state that accepts the rest. */
  lemma StepAccepts(q: State, s: string)
    requires |s| >= 1
    ensures Accepts(q, s) <==> Accepts(Step(q, s[0]), s[1..])
  {
    match q
    case Start => StepStart(s);
    case Local => StepLocal(s);
    case AfterAt => StepAfterAt(s);
    case Domain => StepDomain(s);
    case AfterDot => StepSuffix(s);
    case Suffix => StepSuffix(s);
    case Dead =>
  }

  lemma AllClassCons(s: string)
    requires |s| >= 1
    ensures AllClass(s) <==> ClassChar(s[0]) && AllClass(s[1..])
  {
    if ClassChar(s[0]) && AllClass(s[1..]) {
      forall k | 0 <= k < |s| ensures ClassChar(s[k]) {
        if k > 0 { assert s[k] == s[1..][k - 1]; }
      }
    }
  }

  lemma StepSuffix(s: string)
    requires |s| >= 1
    ensures AllClass(s) <==> ClassChar(s[0]) && AllClass(s[1..])
  {
    AllClassCons(s);
  }

  lemma StepDomain(s: string)
    requires |s| >= 1
    ensures Accepts(Domain, s) <==> Accepts(Step(Domain, s[0]), s[1..])
  {
    if Accepts(Domain, s) {
      var dot :| 0 <= dot < |s| - 1 && s[dot] == '.' && AllClass(s[..dot]) && AllClass(s[dot + 1..]);
      StepDomainForward(s, dot);
    }
    if Accepts(Step(Domain, s[0]), s[1..]) {
      StepDomainBackward(s);
    }
  }

  lemma StepDomainForward(s: string, dot: int)
    requires 0 <= dot < |s| - 1 && s[dot] == '.' && AllClass(s[..dot]) && AllClass(s[dot + 1..])
    ensures Accepts(Step(Domain, s[0]), s[1..])
  {
    var t := s[1..];
    if dot == 0 {
      assert s[dot + 1..] == t;
    } else {
      AllClassCons(s[..dot]);
      HeadOfTail(s, dot);
      assert s[..dot][1..] == t[..dot - 1];
      RestOfTail(s, dot + 1);
      assert s[dot + 1..] == t[dot..];
      if s[0] == '.' {
        forall k | 0 <= k < |t| ensures ClassChar(t[k]) {
          if k + 1 < dot { assert t[k] == s[..dot][k + 1]; }
          else if k + 1 > dot { assert t[k] == s[dot + 1..][k - dot]; }
        }
      } else {
        assert 0 <= dot - 1 < |t| - 1 && t[dot - 1] == '.' && AllClass(t[..dot - 1]) && AllClass(t[dot..]);
      }
    }
  }

  lemma StepDomainBackward(s: string)
    requires |s| >= 1 && Accepts(Step(Domain, s[0]), s[1..])
    ensures Accepts(Domain, s)
  {
    var t := s[1..];
    if s[0] == '.' {
      assert s[..0] == [] && s[1..] == t;
      assert 0 <= 0 < |s| - 1 && s[0] == '.' && AllClass(s[..0]) && AllClass(s[0 + 1..]);
    } else {
      var dot :| 0 <= dot < |t| - 1 && t[dot] == '.' && AllClass(t[..dot]) && AllClass(t[dot + 1..]);
      HeadOfTail(s, dot + 1);
      assert s[..dot + 1][1..] == t[..dot];
      AllClassCons(s[..dot + 1]);
      RestOfTail(s, dot + 2);
      assert s[dot + 2..] == t[dot + 1..];
      assert 0 <= dot + 1 < |s| - 1 && s[dot + 1] == '.' && AllClass(s[..dot + 1]) && AllClass(s[dot + 2..]);
    }
  }

  lemma StepAfterAt(s: string)
    requires |s| >= 1
    ensures Accepts(AfterAt, s) <==> Accepts(Step(AfterAt, s[0]), s[1..])
  {
    var t := s[1..];
    if Accepts(AfterAt, s) {
      var dot :| 0 < dot < |s| - 1 && s[dot] == '.' && AllClass(s[..dot]) && AllClass(s[dot + 1..]);
      AllClassCons(s[..dot]);
      HeadOfTail(s, dot);
      assert s[..dot][1..] == t[..dot - 1];
      RestOfTail(s, dot + 1);
      assert s[dot + 1..] == t[dot..];
      assert 0 <= dot - 1 < |t| - 1 && t[dot - 1] == '.' && AllClass(t[..dot - 1]) && AllClass(t[dot..]);
    }
    if Accepts(Step(AfterAt, s[0]), t) {
      var dot :| 0 <= dot < |t| - 1 && t[dot] == '.' && AllClass(t[..dot]) && AllClass(t[dot + 1..]);
      HeadOfTail(s, dot + 1);
      assert s[..dot + 1][1..] == t[..dot];
      AllClassCons(s[..dot + 1]);
      RestOfTail(s, dot + 2);
      assert s[dot + 2..] == t[dot + 1..];
      assert 0 < dot + 1 < |s| - 1 && s[dot + 1] == '.' && AllClass(s[..dot + 1]) && AllClass(s[dot + 2..]);
    }
  }

  /** Shifting the split points of the pattern by one character. */
  lemma SplitsShift(s: string, at: int, dot: int)
    requires |s| >= 1 && 1 <= at
    ensures SplitsAt(s, at, dot) <==> ClassChar(s[0]) && SplitsAt(s[1..], at - 1, dot - 1)
  {
    var t := s[1..];
    assert |t| == |s| - 1;
    if 0 <= at - 1 && at < dot < |s| - 1 {
      HeadOfTail(s, at);
      assert s[..at][1..] == t[..at - 1];
      AllClassCons(s[..at]);
      SliceOfTail(s, at + 1, dot);
      RestOfTail(s, dot + 1);
      assert s[dot + 1..] == t[dot..];
    }
  }

  /** The tail of a prefix is the prefix of the tail. */
  lemma HeadOfTail(s: string, n: int)
    requires 1 <= n <= |s|
    ensures s[..n][1..] == s[1..][..n - 1]
  {
  }

  /** A suffix of the tail is the suffix of s one position further on. */
  lemma RestOfTail(s: string, k: int)
    requires 1 <= k <= |s|
    ensures s[1..][k - 1..] == s[k..]
  {
  }

  /** A slice of s[1..] is the slice of s one position further on. */
  lemma SliceOfTail(s: string, lo: int, hi: int)
    requires 1 <= lo <= hi <= |s|
    ensures s[1..][lo - 1..hi - 1] == s[lo..hi]
  {
    var t := s[1..];
    assert |t[lo - 1..hi - 1]| == hi - lo;
    forall k | 0 <= k < hi - lo ensures t[lo - 1..hi - 1][k] == s[lo..hi][k] {
      assert t[lo - 1..hi - 1][k] == t[lo - 1 + k] == s[lo + k];
    }
  }

  lemma StepLocal(s: string)
    requires |s| >= 1
    ensures Accepts(Local, s) <==> Accepts(Step(Local, s[0]), s[1..])
  {
    var t := s[1..];
    if Accepts(Local, s) {
      var at, dot :| SplitsAt(s, at, dot);
      if at == 0 {
        SliceOfTail(s, at + 1, dot);
        assert s[at + 1..dot] == t[..dot - 1];
        RestOfTail(s, dot + 1);
        assert s[dot + 1..] == t[dot..];
        assert 0 < dot - 1 < |t| - 1 && t[dot - 1] == '.' && AllClass(t[..dot - 1]) && AllClass(t[dot..]);
      } else {
        assert s[0] == s[..at][0];
        SplitsShift(s, at, dot);
        assert SplitsAt(t, at - 1, dot - 1);
      }
    }
    if Accepts(Step(Local, s[0]), t) {
      if s[0] == '@' {
        var dot :| 0 < dot < |t| - 1 && t[dot] == '.' && AllClass(t[..dot]) && AllClass(t[dot + 1..]);
        assert s[..0] == [];
        SliceOfTail(s, 1, dot + 1);
        assert s[1..dot + 1] == t[..dot];
        RestOfTail(s, dot + 2);
        assert s[dot + 2..] == t[dot + 1..];
        assert SplitsAt(s, 0, dot + 1);
      } else {
        var at, dot :| SplitsAt(t, at, dot);
        SplitsShift(s, at + 1, dot + 1);
        assert SplitsAt(s, at + 1, dot + 1);
      }
    }
  }

  lemma StepStart(s: string)
    requires |s| >= 1
    ensures Accepts(Start, s) <==> Accepts(Step(Start, s[0]), s[1..])
  {
    var t := s[1..];
    if Accepts(Start, s) {
      var at, dot :| 1 <= at && SplitsAt(s, at, dot);
      SplitsShift(s, at, dot);
      assert SplitsAt(t, at - 1, dot - 1);
    }
    if Accepts(Step(Start, s[0]), t) {
      var at, dot :| SplitsAt(t, at, dot);
      SplitsShift(s, at + 1, dot + 1);
      assert 1 <= at + 1 && SplitsAt(s, at + 1, dot + 1);
    }
  }

  /**
   * What the pattern asks of an address, in plain terms: no whitespace, exactly
   * one '@' with something before it, and a '.' in the part after the '@'
   * with at least one character on each side.
   */
  ghost predicate WellFormedEmail(s: string)
  {
    && (forall k :: 0 <= k < |s| ==> !IsJsWhitespace(s[k]))
    && exists at ::
      && 0 < at < |s| && s[at] == '@'
      && (forall k :: 0 <= k < |s| && s[k] == '@' ==> k == at)
      && exists dot :: at + 1 < dot < |s| - 1 && s[dot] == '.'
  }

  lemma EmailMatchesWellFormed(email: string)
    ensures EmailMatches(email) <==> WellFormedEmail(email)
  {
    EmailMatchesPattern(email);
    if EmailPattern(email) {
      var at, dot :| 1 <= at && SplitsAt(email, at, dot);
      PatternConditions(email, at, dot);
    }
    if WellFormedEmail(email) {
      var at :| && 0 < at < |email| && email[at] == '@'
        && (forall k :: 0 <= k < |email| && email[k] == '@' ==> k == at)
        && exists dot :: at + 1 < dot < |email| - 1 && email[dot] == '.';
      var dot :| at + 1 < dot < |email| - 1 && email[dot] == '.';
      ConditionsPattern(email, at, dot);
    }
  }

  lemma PatternConditions(s: string, at: int, dot: int)
    requires 1 <= at && SplitsAt(s, at, dot)
    ensures forall k :: 0 <= k < |s| ==> !IsJsWhitespace(s[k])
    ensures forall k :: 0 <= k < |s| && s[k] == '@' ==> k == at
  {
    forall k | 0 <= k < |s| ensures !IsJsWhitespace(s[k]) && (s[k] == '@' ==> k == at) {
      if k < at { assert s[k] == s[..at][k]; }
      else if at < k < dot { assert s[k] == s[at + 1..dot][k - at - 1]; }
      else if k > dot { assert s[k] == s[dot + 1..][k - dot - 1]; }
    }
  }

  lemma ConditionsPattern(s: string, at: int, dot: int)
    requires 0 < at && at + 1 < dot < |s| - 1 && s[at] == '@' && s[dot] == '.'
    requires forall k :: 0 <= k < |s| ==> !IsJsWhitespace(s[k])
    requires forall k :: 0 <= k < |s| && s[k] == '@' ==> k == at
    ensures SplitsAt(s, at, dot)
  {
    AllClassSlice(s, 0, at);
    AllClassSlice(s, at + 1, dot);
    AllClassSlice(s, dot + 1, |s|);
    assert s[dot + 1..|s|] == s[dot + 1..];
  }

  lemma AllClassSlice(s: string, lo: int, hi: int)
    requires 0 <= lo <= hi <= |s|
    requires forall k :: lo <= k < hi ==> ClassChar(s[k])
    ensures AllClass(s[lo..hi])
  {
    forall k | 0 <= k < hi - lo ensures ClassChar(s[lo..hi][k]) {
      assert s[lo..hi][k] == s[lo + k];
    }
  }

  // ---------------------------------------------------------------------
  // The handler
  // ---------------------------------------------------------------------

  /** Column names of the `contact_submissions` table, in insert order. */
  const Columns: seq<string> :=
    ["first_name", "last_name", "email", "phone", "message", "country_code", "submitted_at"]

  /** The row the handler inserts: one snake_case column per request field. */
  function ToRow(r: ContactRequest): (row: map<string, Option<string>>)
    ensures forall c :: c in row <==> c in Columns
  {
    map["first_name" := r.firstName, "last_name" := r.lastName, "email" := r.email,
        "phone" := r.phone, "message" := r.message, "country_code" := r.countryCode,
        "submitted_at" := r.submittedAt]
  }

  /** Reads a request back from a stored row. */
  function FromRow(row: map<string, Option<string>>): ContactRequest
    requires forall c :: c in Columns ==> c in row
  {
    ContactRequest(row["first_name"], row["last_name"], row["email"], row["phone"],
                   row["message"], row["country_code"], row["submitted_at"])
  }

  /** The row loses nothing: every field can be read back from its column. */
  lemma RowRoundTrip(r: ContactRequest)
    ensures forall c :: c in Columns ==> c in ToRow(r)
    ensures FromRow(ToRow(r)) == r
  {
  }

  /** The request passes both validation steps. */
  predicate Valid(r: ContactRequest)
  {
    HasRequiredFields(r) && EmailMatches(r.email.value)
  }

  /**
   * The row handed to the store: present exactly when the body parsed, the
   * request is valid and the store is configured.
   */
  function InsertedRow(body: Option<ContactRequest>, env: StoreEnv): (row: Option<map<string, Option<string>>>)
    ensures row.Some? <==> body.Some? && Valid(body.value) && StoreConfigured(env)
  {
    if body.Some? && Valid(body.value) && StoreConfigured(env) then Some(ToRow(body.value)) else None
  }

  /** Whatever is inserted holds every field of the posted request. */
  lemma InsertedRowHoldsRequest(body: Option<ContactRequest>, env: StoreEnv)
    requires InsertedRow(body, env).Some?
    ensures forall c :: c in Columns ==> c in InsertedRow(body, env).value
    ensures FromRow(InsertedRow(body, env).value) == body.value
  {
    RowRoundTrip(body.value);
  }

  /**
   * The handler. `body` is None when `request.json()` throws (the catch
   * turns that into a 500); `insert` is what the store does when reached.
   */
  function Post(body: Option<ContactRequest>, env: StoreEnv, insert: InsertOutcome): (resp: Response)
    ensures resp.status == 200 || resp.status == 400 || resp.status == 500
    ensures resp.status == 200 <==> resp.body.Message?
  {
    if body.None? then Response(500, Error("Internal server error"))
    else
      var r := body.value;
      if !HasRequiredFields(r) then Response(400, Error("Missing required fields"))
      else if !EmailMatches(r.email.value) then Response(400, Error("Invalid email format"))
      else if StoreConfigured(env) && insert == Failed then Response(500, Error("Failed to save submission"))
      else if StoreConfigured(env) && insert == Threw then Response(500, Error("Internal server error"))
      else Response(200, Message("Form submitted successfully"))
  }

  /** A request missing a required field always gets the missing-fields error, whatever its email. */
  lemma MissingFieldsRejected(r: ContactRequest, env: StoreEnv, insert: InsertOutcome)
    ensures !HasRequiredFields(r) <==> Post(Some(r), env, insert) == Response(400, Error("Missing required fields"))
  {
  }

  /** A complete request whose email does not match the pattern gets the email error. */
  lemma InvalidEmailRejected(r: ContactRequest, env: StoreEnv, insert: InsertOutcome)
    ensures Post(Some(r), env, insert) == Response(400, Error("Invalid email format"))
        <==> HasRequiredFields(r) && !WellFormedEmail(r.email.value)
  {
    if r.email.Some? { EmailMatchesWellFormed(r.email.value); }
  }

  /** The status is 400 exactly for a parsed but invalid request. */
  lemma BadRequestExactly(body: Option<ContactRequest>, env: StoreEnv, insert: InsertOutcome)
    ensures Post(body, env, insert).status == 400 <==> body.Some? && !Valid(body.value)
  {
  }

  /**
   * A valid request is answered 200 when the store is not configured or saved
   * the row, and 500 when the insert failed or threw.
   */
  lemma ValidOutcome(r: ContactRequest, env: StoreEnv, insert: InsertOutcome)
    requires Valid(r)
    ensures Post(Some(r), env, insert).status == 200 <==> !StoreConfigured(env) || insert == Saved
    ensures Post(Some(r), env, insert).status == 500 <==> StoreConfigured(env) && insert != Saved
  {
  }

  /** The optional fields never influence the answer. */
  lemma OptionalFieldsIgnored(r: ContactRequest, countryCode: Option<string>, submittedAt: Option<string>,
                              env: StoreEnv, insert: InsertOutcome)
    ensures Post(Some(r.(countryCode := countryCode, submittedAt := submittedAt)), env, insert)
         == Post(Some(r), env, insert)
  {
  }

  /** When nothing is inserted, the store's behaviour cannot change the answer. */
  lemma StoreOnlyWhenInserted(body: Option<ContactRequest>, env: StoreEnv, first: InsertOutcome, second: InsertOutcome)
    requires InsertedRow(body, env).None?
    ensures Post(body, env, first) == Post(body, env, second)
  {
  }

  /** Answer 200 means the request was valid, and stored whenever the store is configured. */
  lemma SuccessMeansAccepted(body: Option<ContactRequest>, env: StoreEnv, insert: InsertOutcome)
    ensures Post(body, env, insert).status == 200
        <==> body.Some? && Valid(body.value) && (InsertedRow(body, env).Some? ==> insert == Saved)
  {
  }
}
