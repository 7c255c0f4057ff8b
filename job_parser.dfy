/** The JSON-slice step of `ExtractJobDetails`: the first match of the Go
    regular expression `\{.*?\}` in the model's reply, and the error returned
    when there is none. Go's RE2 engine matches leftmost-first, `.` does not
    match a newline, and `.*?` is lazy, so the match is the leftmost `{` that
    is followed on the same line by a `}`, up to the first such `}`. */
module JobParser {
  import opened Wrappers

  /** The error text returned when the reply holds no `{...}` span. */
  const NoJsonError := "no JSON found in OpenAI response"

  /** A match `content[start..end]`. */
  datatype Span = Span(start: nat, end: nat)

  // ---------------------------------------------------------------------------
  // The meaning of a match

  /** `s[k]` is a `}` after position `i` with no newline between them. */
  ghost predicate ClosesOnLine(s: string, i: int, k: int) {
    0 <= i < k < |s| && s[k] == '}' && forall m :: i < m < k ==> s[m] != '\n'
  }

  /** A `{` at `i` that some later `}` on the same line closes: the regular
      expression can match starting at `i`. */
  ghost predicate Opens(s: string, i: int) {
    0 <= i < |s| && s[i] == '{' && exists k :: ClosesOnLine(s, i, k)
  }

  /** The reply holds at least one `{...}` span on one line. */
  ghost predicate HasJsonSpan(s: string) {
    exists i :: Opens(s, i)
  }

  /** `r` occurs in `content` at `i`, a match can start there, and no match
      can start earlier. */
  ghost predicate IsLeftmostAt(content: string, r: string, i: int) {
    0 <= i <= |content| - |r|
    && content[i..i + |r|] == r
    && Opens(content, i)
    && forall p :: 0 <= p < i ==> !Opens(content, p)
  }

  // ---------------------------------------------------------------------------
  // The scan

  /** The lazy `.*?\}` after position `i`, resumed at `j`: the first `}` after
      `i`, provided no newline comes before it. */
  function CloseFrom(s: string, i: nat, j: nat): (r: Option<nat>)
    requires i < j <= |s|
    requires forall m :: i < m < j ==> s[m] != '\n' && s[m] != '}'
    ensures r.Some? ==> ClosesOnLine(s, i, r.value)
    ensures r.Some? ==> forall m :: i < m < r.value ==> s[m] != '}'
    ensures r.None? ==> forall k :: !ClosesOnLine(s, i, k)
    decreases |s| - j
  {
    if j == |s| then None
    else if s[j] == '}' then Some(j)
    else if s[j] == '\n' then None
    else CloseFrom(s, i, j + 1)
  }

  /** The end of the match that starts at `i`, if one does. */
  function MatchAt(s: string, i: nat): (r: Option<nat>)
    requires i <= |s|
    ensures r.Some? <==> Opens(s, i)
    ensures r.Some? ==> i + 2 <= r.value <= |s| && ClosesOnLine(s, i, r.value - 1)
    ensures r.Some? ==> forall m :: i < m < r.value - 1 ==> s[m] != '}'
  {
    if i < |s| && s[i] == '{' then
      match CloseFrom(s, i, i + 1)
      case None => None
      case Some(k) => Some(k + 1)
    else None
  }

  /** The leftmost match that starts at or after `i`. */
  function FindFrom(s: string, i: nat): (r: Option<Span>)
    requires i <= |s|
    ensures r.None? <==> forall p :: i <= p ==> !Opens(s, p)
    ensures r.Some? ==> i <= r.value.start && Opens(s, r.value.start)
    ensures r.Some? ==> forall p :: i <= p < r.value.start ==> !Opens(s, p)
    ensures r.Some? ==> MatchAt(s, r.value.start) == Some(r.value.end)
    decreases |s| - i
  {
    if i == |s| then None
    else
      match MatchAt(s, i)
      case Some(e) => Some(Span(i, e))
      case None => FindFrom(s, i + 1)
  }

  /** `re.FindString(content)` for `\{.*?\}`: the text of the leftmost
      match, or "" when there is none. */
  function FindString(content: string): (r: string)
    ensures r == "" <==> !HasJsonSpan(content)
    ensures r != "" ==> 2 <= |r| && r[0] == '{' && r[|r| - 1] == '}'
    ensures forall m :: 0 <= m < |r| ==> r[m] != '\n'
    ensures forall m :: 0 <= m < |r| - 1 ==> r[m] != '}'
    ensures r != "" ==> exists i :: IsLeftmostAt(content, r, i)
  {
    match FindFrom(content, 0)
    case None => ""
    case Some(sp) =>
      var r := content[sp.start..sp.end];
      assert IsLeftmostAt(content, r, sp.start);
      r
  }

  /** The properties stated of `FindString` determine it: a span that opens
      at the leftmost possible `{` and closes at the first `}` after it on the
      same line is the match. */
  lemma MatchIsUnique(content: string, i: nat, k: nat)
    requires ClosesOnLine(content, i, k) && content[i] == '{'
    requires forall m :: i < m < k ==> content[m] != '}'
    requires forall p :: 0 <= p < i ==> !Opens(content, p)
    ensures FindString(content) == content[i..k + 1]
  {
    assert Opens(content, i);
    var sp := FindFrom(content, 0).value;
    assert sp.start == i;
  }

  /** A reply with a one-line object yields exactly that object. */
  lemma ExampleEmptyObject()
    ensures FindString("x {} y") == "{}"
  {
    MatchIsUnique("x {} y", 2, 3);
  }

  /** A `{` whose line ends before any `}` cannot start the match. */
  lemma ExampleNewlineBreaksSpan()
    ensures FindString("{\n} {a}") == "{a}"
  {
    var s := "{\n} {a}";
    assert s[1] == '\n';
    MatchIsUnique(s, 4, 6);
  }

  /** The match is leftmost rather than shortest: it starts at the first
      `{`, even though a shorter span starts later. */
  lemma ExampleLeftmostNotShortest()
    ensures FindString("{{a}") == "{{a}"
  {
    MatchIsUnique("{{a}", 0, 3);
  }

  /** Lazy matching stops at the first `}`. */
  lemma ExampleLazyStop()
    ensures FindString("{a}}") == "{a}"
  {
    MatchIsUnique("{a}}", 0, 2);
  }

  // ---------------------------------------------------------------------------
  // ExtractJobDetails

  /** The Go triple `(company, title, error)`. */
  datatype Details = Details(company: string, title: string, err: Option<string>)

  /** The JSON slice of a reply, or the "no JSON" error. */
  function ExtractJson(content: string): (r: Result<string, string>)
    ensures r.Failure? <==> !HasJsonSpan(content)
    ensures r.Failure? ==> r.error == NoJsonError
    ensures r.Success? ==> r.value != "" && r.value[0] == '{' && r.value[|r.value| - 1] == '}'
    ensures r.Success? ==> r.value == FindString(content)
  {
    var jsonStr := FindString(content);
    if jsonStr == "" then Failure(NoJsonError) else Success(jsonStr)
  }

  /** `ExtractJobDetails` around the foreign calls: `reply` is the outcome of
      the chat-completion request (the first choice's content or the request
      error) and `unmarshal` is `json.Unmarshal` into `{company, title}`.
      Every error path returns empty company and title. */
  function ExtractJobDetails(reply: Result<string, string>,
                             unmarshal: string -> Result<(string, string), string>): (d: Details)
    ensures d.err.Some? ==> d.company == "" && d.title == ""
    ensures reply.Failure? ==> d.err == Some(reply.error)
    ensures reply.Success? && !HasJsonSpan(reply.value) ==> d.err == Some(NoJsonError)
    ensures reply.Success? && HasJsonSpan(reply.value) ==>
              match unmarshal(FindString(reply.value))
              case Failure(e) => d.err == Some(e)
              case Success(fields) => d == Details(fields.0, fields.1, None)
  {
    match reply
    case Failure(e) => Details("", "", Some(e))
    case Success(content) =>
      match ExtractJson(content)
      case Failure(e) => Details("", "", Some(e))
      case Success(jsonStr) =>
        match unmarshal(jsonStr)
        case Failure(e) => Details("", "", Some(e))
        case Success(fields) => Details(fields.0, fields.1, None)
  }
}
