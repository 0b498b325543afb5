/** The Jobs JSON printer (src/jobs/Jobs.cpp:111-235) against a reader of JSON strings and objects. */
module JobsJson {
  import opened MqttTypes

  const QUOTE := '"'
  const BACKSLASH := '\\'

  // ---------- escaping ----------

  function EscapeChar(c: char): string {
    match c
    case '\n' => "\\n"
    case '\r' => "\\r"
    case '\t' => "\\t"
    case '"' => "\\\""
    case '\\' => "\\\\"
    case _ => [c]
  }

  function Escaped(s: string): string {
    if s == [] then [] else EscapeChar(s[0]) + Escaped(s[1..])
  }

  lemma {:induction false} EscapedAppend(done: string, c: char)
    ensures Escaped(done + [c]) == Escaped(done) + EscapeChar(c)
    decreases |done|
  {
    hide EscapeChar;
    if done == [] {
      assert (done + [c])[1..] == [] && EscapeChar(c) + [] == EscapeChar(c) && Escaped([]) == [];
    } else {
      EscapedAppend(done[1..], c);
      assert (done + [c])[1..] == done[1..] + [c];
    }
  }

  method Escape(value: string) returns (result: string)
    ensures result == Escaped(value)
  {
    hide EscapeChar;
    result := "";
    var i := 0;
    while i < |value|
      invariant 0 <= i <= |value|
      invariant result == Escaped(value[..i])
    {
      EscapedAppend(value[..i], value[i]);
      assert value[..i + 1] == value[..i] + [value[i]];
      var piece := EscapeOne(value[i]);
      result := result + piece;
      i := i + 1;
    }
    assert value[..i] == value;
  }

  /** The cases of the loop's switch. */
  method EscapeOne(c: char) returns (piece: string)
    ensures piece == EscapeChar(c)
  {
    if c == '\n' {
      piece := "\\n";
    } else if c == '\r' {
      piece := "\\r";
    } else if c == '\t' {
      piece := "\\t";
    } else if c == '"' {
      piece := "\\\"";
    } else if c == '\\' {
      piece := "\\\\";
    } else {
      piece := [c];
    }
  }

  // ---------- a reader: sections 4 and 7 of RFC 8259, raw control characters allowed ----------

  datatype Json = JString(text: string) | JObject(members: seq<Member>)

  datatype Member = Member(name: string, value: Json)

  function HexDigit(c: char): Option<nat> {
    if '0' <= c <= '9' then Some(c as int - '0' as int)
    else if 'a' <= c <= 'f' then Some(c as int - 'a' as int + 10)
    else if 'A' <= c <= 'F' then Some(c as int - 'A' as int + 10)
    else None
  }

  /** Four hexadecimal digits that name a character of the basic plane. */
  function HexChar(s: string): Option<char>
    requires |s| >= 4
  {
    match (HexDigit(s[0]), HexDigit(s[1]), HexDigit(s[2]), HexDigit(s[3]))
    case (Some(a), Some(b), Some(c), Some(d)) =>
      var code := ((a * 16 + b) * 16 + c) * 16 + d;
      if 0 <= code < 0xD800 || 0xE000 <= code < 0x1_0000 then Some(code as char) else None
    case _ => None
  }

  function PlainEscape(c: char): Option<char> {
    match c
    case '"' => Some('"')
    case '\\' => Some('\\')
    case '/' => Some('/')
    case 'b' => Some('\U{8}')
    case 'f' => Some('\U{c}')
    case 'n' => Some('\n')
    case 'r' => Some('\r')
    case 't' => Some('\t')
    case _ => None
  }

  /** One character of a string, escaped or not: what it is and how many characters it takes. */
  function ReadChar(s: string): (r: Option<(char, nat)>)
    ensures r.Some? ==> 1 <= r.value.1 <= |s|
    ensures r.Some? && r.value.1 == 1 ==> r.value.0 == s[0] != QUOTE && s[0] != BACKSLASH
  {
    if s == [] || s[0] == QUOTE then None
    else if s[0] != BACKSLASH then Some((s[0], 1))
    else if |s| < 2 then None
    else if s[1] == 'u' then
      if |s| < 6 || HexChar(s[2..]).None? then None else Some((HexChar(s[2..]).value, 6))
    else if PlainEscape(s[1]).None? then None
    else Some((PlainEscape(s[1]).value, 2))
  }

  /** A string, from behind its opening quote to behind its closing one: the text and what follows. */
  function ReadText(s: string): (r: Option<(string, string)>)
    ensures r.Some? ==> |r.value.0| + 1 + |r.value.1| <= |s|
    decreases |s|
  {
    if s != [] && s[0] == QUOTE then Some(([], s[1..]))
    else match ReadChar(s)
      case None => None
      case Some((c, used)) =>
        match ReadText(s[used..])
        case None => None
        case Some((text, rest)) => Some(([c] + text, rest))
  }

  function SkipSpace(s: string): (r: string)
    ensures |r| <= |s|
  {
    if s != [] && s[0] in {' ', '\t', '\n', '\r'} then SkipSpace(s[1..]) else s
  }

  function ReadValue(s: string): (r: Option<(Json, string)>)
    ensures r.Some? ==> |r.value.1| < |s|
    decreases |s|, 1
  {
    var t := SkipSpace(s);
    if t == [] then None
    else if t[0] == QUOTE then
      match ReadText(t[1..])
      case None => None
      case Some((text, rest)) => Some((JString(text), rest))
    else if t[0] == '{' then
      var u := SkipSpace(t[1..]);
      if u != [] && u[0] == '}' then Some((JObject([]), u[1..]))
      else match ReadMembers(u)
        case None => None
        case Some((members, rest)) => Some((JObject(members), rest))
    else None
  }

  function ReadMembers(s: string): (r: Option<(seq<Member>, string)>)
    ensures r.Some? ==> |r.value.1| < |s|
    decreases |s|, 0
  {
    var a := SkipSpace(s);
    if a == [] || a[0] != QUOTE then None
    else match ReadText(a[1..])
      case None => None
      case Some((name, b0)) =>
        var b := SkipSpace(b0);
        if b == [] || b[0] != ':' then None
        else match ReadValue(b[1..])
          case None => None
          case Some((value, c0)) =>
            var c := SkipSpace(c0);
            if c == [] then None
            else if c[0] == '}' then Some(([Member(name, value)], c[1..]))
            else if c[0] != ',' then None
            else match ReadMembers(c[1..])
              case None => None
              case Some((more, d)) => Some(([Member(name, value)] + more, d))
  }

  // ---------- escaping is undone exactly ----------

  lemma CharRoundTrip(c: char, rest: string)
    ensures ReadChar(EscapeChar(c) + rest) == Some((c, |EscapeChar(c)|))
    ensures EscapeChar(c)[0] != QUOTE
  {
  }

  /** The reader gets back every string, and stops at the quote that was put behind it. */
  lemma {:induction false} TextRoundTrip(s: string, rest: string)
    ensures ReadText(Escaped(s) + [QUOTE] + rest) == Some((s, rest))
    decreases |s|
  {
    hide EscapeChar, ReadChar;
    var text := Escaped(s) + [QUOTE] + rest;
    if s == [] {
      assert text == [QUOTE] + rest && text[1..] == rest;
    } else {
      var piece, later := EscapeChar(s[0]), Escaped(s[1..]) + [QUOTE] + rest;
      CharRoundTrip(s[0], later);
      TextRoundTrip(s[1..], rest);
      assert text == piece + later && text[|piece|..] == later;
      assert [s[0]] + s[1..] == s;
    }
  }

  /** Escaped text leaves no bare quote: by itself it never ends a string. */
  lemma {:induction false} NoBareQuote(s: string)
    ensures ReadText(Escaped(s)) == None
    decreases |s|
  {
    hide EscapeChar, ReadChar;
    if s == [] {
      assert ReadChar([]) == None by { NothingToRead(); }
    } else {
      var piece, later := EscapeChar(s[0]), Escaped(s[1..]);
      CharRoundTrip(s[0], later);
      NoBareQuote(s[1..]);
      assert (piece + later)[|piece|..] == later;
    }
  }

  lemma NothingToRead()
    ensures ReadChar([]) == None
  {
  }

  // ---------- printing ----------

  function Quoted(s: string): string {
    [QUOTE] + Escaped(s) + [QUOTE]
  }

  /** How the printer writes a value, and the members of an object. */
  function Print(v: Json): string
    decreases v, 1
  {
    match v
    case JString(text) => Quoted(text)
    case JObject(members) => "{" + PrintMembers(members) + "}"
  }

  function PrintMember(m: Member): string
    decreases m, 2
  {
    Quoted(m.name) + ":" + Print(m.value)
  }

  function PrintMembers(ms: seq<Member>): string
    decreases ms, 0
  {
    if ms == [] then ""
    else if |ms| == 1 then PrintMember(ms[0])
    else PrintMember(ms[0]) + "," + PrintMembers(ms[1..])
  }

  lemma QuotedRoundTrip(s: string, rest: string)
    ensures Quoted(s) + rest != [] && (Quoted(s) + rest)[0] == QUOTE
    ensures SkipSpace(Quoted(s) + rest) == Quoted(s) + rest
    ensures ReadText((Quoted(s) + rest)[1..]) == Some((s, rest))
  {
    hide ReadText, Escaped;
    TextRoundTrip(s, rest);
    assert (Quoted(s) + rest)[1..] == Escaped(s) + [QUOTE] + rest;
  }

  lemma NoSpace(s: string)
    requires s != [] && s[0] !in {' ', '\t', '\n', '\r'}
    ensures SkipSpace(s) == s
  {
  }

  /** Whatever is printed is read back. */
  lemma {:induction false} ValueRoundTrip(v: Json, rest: string)
    ensures ReadValue(Print(v) + rest) == Some((v, rest))
    decreases v, 1
  {
    hide ReadText, Quoted, PrintMembers, ReadMembers;
    var t := Print(v) + rest;
    match v
    case JString(text) =>
      QuotedRoundTrip(text, rest);
      assert t == Quoted(text) + rest;
      assert ReadValue(t) == Some((JString(text), rest));
    case JObject(members) =>
      assert t[0] == '{';
      NoSpace(t);
      assert t[1..] == PrintMembers(members) + ("}" + rest);
      if members == [] {
        NoMembers();
        assert t[1..] == "}" + rest && (t[1..])[1..] == rest;
        NoSpace(t[1..]);
        assert ReadValue(t) == Some((JObject([]), rest));
      } else {
        MembersStart(members, "}" + rest);
        MembersRoundTrip(members, rest);
        assert ReadValue(t) == Some((JObject(members), rest));
      }
  }

  lemma NoMembers()
    ensures PrintMembers([]) == ""
  {
  }

  lemma MembersStart(ms: seq<Member>, rest: string)
    requires ms != []
    ensures var s := PrintMembers(ms) + rest; s != [] && s[0] == QUOTE && SkipSpace(s) == s
  {
    assert PrintMember(ms[0])[0] == QUOTE;
  }

  /** What the reader does behind a member. */
  function AfterMember(m: Member, tail: string): Option<(seq<Member>, string)>
    requires tail != []
  {
    if tail[0] == '}' then Some(([m], tail[1..]))
    else match ReadMembers(tail[1..])
      case None => None
      case Some((more, rest)) => Some(([m] + more, rest))
  }

  lemma {:induction false} MemberRead(m: Member, tail: string)
    requires tail != [] && tail[0] in {',', '}'}
    ensures ReadMembers(PrintMember(m) + tail) == AfterMember(m, tail)
    decreases m, 2
  {
    hide ReadText, ReadValue, Print, Quoted;
    var s, b := PrintMember(m) + tail, ":" + (Print(m.value) + tail);
    assert s == Quoted(m.name) + b;
    QuotedRoundTrip(m.name, b);
    assert b[1..] == Print(m.value) + tail;
    ValueRoundTrip(m.value, tail);
  }

  lemma {:induction false} MembersRoundTrip(ms: seq<Member>, rest: string)
    requires ms != []
    ensures ReadMembers(PrintMembers(ms) + ("}" + rest)) == Some((ms, rest))
    decreases ms, 0
  {
    hide ReadMembers, PrintMember;
    if |ms| == 1 {
      MemberRead(ms[0], "}" + rest);
      assert ("}" + rest)[1..] == rest && [ms[0]] == ms;
    } else {
      var later := PrintMembers(ms[1..]) + ("}" + rest);
      MembersRoundTrip(ms[1..], rest);
      MemberRead(ms[0], "," + later);
      assert PrintMembers(ms) + ("}" + rest) == PrintMember(ms[0]) + ("," + later);
      assert ("," + later)[1..] == later && [ms[0]] + ms[1..] == ms;
    }
  }

  function Behind(ms: seq<Member>, read: Option<(seq<Member>, string)>): Option<(seq<Member>, string)> {
    if read.Some? then Some((ms + read.value.0, read.value.1)) else None
  }

  lemma PrintedBehind(ms: seq<Member>, later: string)
    requires |ms| > 1
    ensures PrintMembers(ms) + ("," + later) == PrintMember(ms[0]) + ("," + (PrintMembers(ms[1..]) + ("," + later)))
  {
    hide PrintMember;
  }

  /** Members read in the middle of an object, before a comma. */
  lemma {:induction false} MembersPrefix(ms: seq<Member>, later: string)
    requires ms != []
    ensures ReadMembers(PrintMembers(ms) + ("," + later)) == Behind(ms, ReadMembers(later))
    decreases |ms|
  {
    hide ReadMembers, PrintMember;
    assert ("," + later)[1..] == later;
    if |ms| == 1 {
      MemberRead(ms[0], "," + later);
      assert [ms[0]] == ms;
    } else {
      var further := PrintMembers(ms[1..]) + ("," + later);
      PrintedBehind(ms, later);
      hide PrintMembers;
      MembersPrefix(ms[1..], later);
      MemberRead(ms[0], "," + further);
      assert ("," + further)[1..] == further;
      var r := ReadMembers(later);
      if r.Some? {
        assert [ms[0]] + (ms[1..] + r.value.0) == ms + r.value.0;
      }
    }
  }

  // ---------- status details ----------

  /** The keys of a map in the order a walk takes them. */
  ghost predicate WalkOf(order: seq<string>, details: map<string, string>) {
    && (forall k :: k in order <==> k in details)
    && (forall i, j :: 0 <= i < j < |order| ==> order[i] != order[j])
  }

  function DetailMembers(details: map<string, string>, order: seq<string>): seq<Member>
    requires forall k :: k in order ==> k in details
  {
    if order == [] then [] else [Member(order[0], JString(details[order[0]]))] + DetailMembers(details, order[1..])
  }

  function StatusDetails(details: map<string, string>, order: seq<string>): Json
    requires forall k :: k in order ==> k in details
  {
    JObject(DetailMembers(details, order))
  }

  /** The map an object of strings stands for; a name that comes twice keeps its last value. */
  function MapOf(ms: seq<Member>): Option<map<string, string>> {
    if ms == [] then Some(map[])
    else
      var rest := MapOf(ms[1..]);
      if rest.None? || !ms[0].value.JString? then None
      else if ms[0].name in rest.value then rest
      else Some(rest.value[ms[0].name := ms[0].value.text])
  }

  /** Reads a text that is one object of strings and nothing else. */
  function ReadMap(s: string): Option<map<string, string>> {
    match ReadValue(s)
    case None => None
    case Some((v, rest)) => if v.JObject? && SkipSpace(rest) == [] then MapOf(v.members) else None
  }

  function Restricted(details: map<string, string>, order: seq<string>): map<string, string> {
    map k | k in details && k in order :: details[k]
  }

  lemma {:induction false} DetailsMap(details: map<string, string>, order: seq<string>)
    requires forall k :: k in order ==> k in details
    requires forall i, j :: 0 <= i < j < |order| ==> order[i] != order[j]
    ensures MapOf(DetailMembers(details, order)) == Some(Restricted(details, order))
    decreases |order|
  {
    if order == [] {
      assert Restricted(details, order) == map[];
    } else {
      var k, rest := order[0], order[1..];
      DetailsMap(details, rest);
      assert k !in rest && Restricted(details, order) == Restricted(details, rest)[k := details[k]];
      var ms := DetailMembers(details, order);
      assert ms[1..] == DetailMembers(details, rest);
    }
  }

  /** Printing a map of strings and reading it gives the same map, for every map and every order of the walk. */
  lemma StatusDetailsRoundTrip(details: map<string, string>, order: seq<string>)
    requires WalkOf(order, details)
    ensures ReadMap(Print(StatusDetails(details, order))) == Some(details)
  {
    hide ReadValue, Print, DetailMembers, MapOf;
    var v := StatusDetails(details, order);
    ValueRoundTrip(v, "");
    assert Print(v) + "" == Print(v);
    DetailsMap(details, order);
    assert Restricted(details, order) == details;
    assert SkipSpace([]) == [];
  }

  /** The text of the first members while the walk goes on. */
  lemma {:induction false} PrintedSoFar(ms: seq<Member>, m: Member)
    ensures PrintMembers(ms + [m]) == PrintMembers(ms) + (if ms == [] then "" else ",") + PrintMember(m)
    decreases |ms|
  {
    hide PrintMember;
    if |ms| == 0 {
      assert ms + [m] == [m];
    } else {
      assert (ms + [m])[1..] == ms[1..] + [m] && (ms + [m])[0] == ms[0];
      PrintedSoFar(ms[1..], m);
    }
  }

  method SerializeStatusDetails(details: map<string, string>, order: seq<string>) returns (result: string)
    requires WalkOf(order, details)
    ensures result == Print(StatusDetails(details, order))
  {
    hide Quoted, MapOf, PrintMember;
    result := "{";
    var i := 0;
    ghost var ms := DetailMembers(details, order);
    DetailsInOrder(details, order);
    while i < |order|
      invariant 0 <= i <= |order|
      invariant result == "{" + PrintMembers(ms[..i])
    {
      PrintedSoFar(ms[..i], ms[i]);
      assert ms[..i + 1] == ms[..i] + [ms[i]];
      result := result + if i == 0 then "" else ",";
      var member := SerializeDetail(order[i], details[order[i]]);
      result := result + member;
      i := i + 1;
    }
    assert ms[..i] == ms;
    result := result + "}";
  }

  method SerializeDetail(name: string, text: string) returns (result: string)
    ensures result == PrintMember(Member(name, JString(text)))
  {
    hide Escaped;
    var first := Escape(name);
    var second := Escape(text);
    result := "\"" + first + "\":\"" + second + "\"";
  }

  lemma {:induction false} DetailsInOrder(details: map<string, string>, order: seq<string>)
    requires forall k :: k in order ==> k in details
    ensures var ms := DetailMembers(details, order);
            |ms| == |order| && forall i :: 0 <= i < |order| ==> ms[i] == Member(order[i], JString(details[order[i]]))
    decreases |order|
  {
    if order != [] {
      DetailsInOrder(details, order[1..]);
    }
  }

  // ---------- the update payload ----------

  datatype JobStatus = NotSet | Queued | InProgress | Failed | Succeeded | Canceled | Rejected | Unknown

  function StatusName(status: JobStatus): string {
    match status
    case Queued => "QUEUED"
    case InProgress => "IN_PROGRESS"
    case Failed => "FAILED"
    case Succeeded => "SUCCEEDED"
    case Canceled => "CANCELED"
    case Rejected => "REJECTED"
    case NotSet => ""
    case Unknown => ""
  }

  function Digits(n: nat): string {
    if n < 10 then [('0' as int + n) as char] else Digits(n / 10) + [('0' as int + n % 10) as char]
  }

  /** Nothing in the text needs escaping. */
  predicate NoSpecial(s: string) {
    forall i :: 0 <= i < |s| ==> s[i] !in {'\n', '\r', '\t', '"', '\\'}
  }

  lemma {:induction false} NothingEscaped(s: string)
    requires NoSpecial(s)
    ensures Escaped(s) == s
    decreases |s|
  {
    if s != [] {
      NothingEscaped(s[1..]);
      assert EscapeChar(s[0]) == [s[0]];
    }
  }

  lemma {:induction false} DigitsNotSpecial(n: nat)
    ensures NoSpecial(Digits(n))
    decreases n
  {
    if n >= 10 {
      DigitsNotSpecial(n / 10);
    }
  }

  /** A number that is left out when it is not positive. */
  function OptionalNumber(name: string, n: int): seq<Member> {
    if n > 0 then [Member(name, JString(Digits(n)))] else []
  }

  function OptionalFlag(name: string, value: bool): seq<Member> {
    if value then [Member(name, JString("true"))] else []
  }

  function OptionalDetails(name: string, details: map<string, string>, order: seq<string>): seq<Member>
    requires forall k :: k in order ==> k in details
  {
    if details == map[] then [] else [Member(name, StatusDetails(details, order))]
  }

  datatype Update = Update(status: JobStatus, details: map<string, string>, expectedVersion: int, executionNumber: int,
                           includeJobExecutionState: bool, includeJobDocument: bool)

  /** What the payload should say, the client token aside. */
  function UpdateMembers(u: Update, order: seq<string>): (ms: seq<Member>)
    requires forall k :: k in order ==> k in u.details
    ensures ms != []
  {
    [Member("status", JString(StatusName(u.status)))] + OptionalDetails("statusDetails", u.details, order) +
    OptionalNumber("expectedVersion", u.expectedVersion) + OptionalNumber("executionNumber", u.executionNumber) +
    OptionalFlag("includeJobExecutionState", u.includeJobExecutionState) +
    OptionalFlag("includeJobDocument", u.includeJobDocument)
  }

  /** The token is put in as it is. */
  function TokenText(name: string, token: string): string {
    if token == "" then "" else ",\"" + name + "\":\"" + token + "\""
  }

  function UpdateText(ms: seq<Member>, name: string, token: string): string {
    "{" + PrintMembers(ms) + TokenText(name, token) + "}"
  }

  method AppendMember(result: string, ghost ms: seq<Member>, name: string, text: string) returns (longer: string)
    requires ms != [] && result == "{" + PrintMembers(ms) && NoSpecial(name) && NoSpecial(text)
    ensures longer == "{" + PrintMembers(ms + [Member(name, JString(text))])
  {
    hide NoSpecial, Escaped, PrintMembers;
    NothingEscaped(name);
    NothingEscaped(text);
    PrintedSoFar(ms, Member(name, JString(text)));
    var member := "\"" + name + "\":\"" + text + "\"";
    assert member == PrintMember(Member(name, JString(text)));
    longer := result + "," + member;
  }

  method AppendNumber(result: string, ghost ms: seq<Member>, name: string, n: int) returns (longer: string)
    requires ms != [] && result == "{" + PrintMembers(ms) && NoSpecial(name)
    ensures longer == "{" + PrintMembers(ms + OptionalNumber(name, n))
  {
    hide NoSpecial, PrintMembers, Digits;
    longer := result;
    if n > 0 {
      DigitsNotSpecial(n);
      longer := AppendMember(result, ms, name, Digits(n));
    } else {
      assert ms + [] == ms;
    }
  }

  method AppendFlag(result: string, ghost ms: seq<Member>, name: string, value: bool) returns (longer: string)
    requires ms != [] && result == "{" + PrintMembers(ms) && NoSpecial(name)
    ensures longer == "{" + PrintMembers(ms + OptionalFlag(name, value))
  {
    assert NoSpecial("true");
    hide NoSpecial, PrintMembers;
    longer := result;
    if value {
      longer := AppendMember(result, ms, name, "true");
    } else {
      assert ms + [] == ms;
    }
  }

  method AppendDetails(result: string, ghost ms: seq<Member>, name: string, details: map<string, string>,
                       order: seq<string>)
    returns (longer: string)
    requires ms != [] && result == "{" + PrintMembers(ms) && WalkOf(order, details) && NoSpecial(name)
    ensures longer == "{" + PrintMembers(ms + OptionalDetails(name, details, order))
  {
    hide NoSpecial, PrintMembers, StatusDetails, Escaped;
    longer := result;
    if details != map[] {
      NothingEscaped(name);
      PrintedSoFar(ms, Member(name, StatusDetails(details, order)));
      var text := SerializeStatusDetails(details, order);
      longer := longer + ",\"" + name + "\":" + text;
    } else {
      assert ms + [] == ms;
    }
  }

  lemma StatusNotSpecial(status: JobStatus)
    ensures NoSpecial("status") && NoSpecial(StatusName(status)) && NoSpecial("statusDetails")
  {
  }

  lemma NumbersNotSpecial()
    ensures NoSpecial("expectedVersion") && NoSpecial("executionNumber")
  {
  }

  lemma FlagsNotSpecial()
    ensures NoSpecial("includeJobExecutionState") && NoSpecial("includeJobDocument")
  {
  }

  method SerializeJobExecutionUpdatePayload(u: Update, order: seq<string>, clientToken: string)
    returns (result: string)
    requires WalkOf(order, u.details)
    ensures result == if StatusName(u.status) == "" then ""
                      else UpdateText(UpdateMembers(u, order), "clientToken", clientToken)
  {
    hide NoSpecial, PrintMembers, PrintMember, OptionalDetails, OptionalNumber, OptionalFlag, StatusName, Escaped, Quoted;
    var executionStatus := StatusName(u.status);
    if executionStatus == "" {
      return "";
    }
    StatusNotSpecial(u.status);
    NumbersNotSpecial();
    FlagsNotSpecial();
    result := StartUpdate(executionStatus);
    ghost var m0 := [Member("status", JString(executionStatus))];
    result := AppendDetails(result, m0, "statusDetails", u.details, order);
    ghost var m1 := m0 + OptionalDetails("statusDetails", u.details, order);
    result := AppendNumber(result, m1, "expectedVersion", u.expectedVersion);
    ghost var m2 := m1 + OptionalNumber("expectedVersion", u.expectedVersion);
    result := AppendNumber(result, m2, "executionNumber", u.executionNumber);
    ghost var m3 := m2 + OptionalNumber("executionNumber", u.executionNumber);
    result := AppendFlag(result, m3, "includeJobExecutionState", u.includeJobExecutionState);
    ghost var m4 := m3 + OptionalFlag("includeJobExecutionState", u.includeJobExecutionState);
    result := AppendFlag(result, m4, "includeJobDocument", u.includeJobDocument);
    result := CloseUpdate(result, UpdateMembers(u, order), "clientToken", clientToken);
  }

  method CloseUpdate(text: string, ghost ms: seq<Member>, name: string, clientToken: string) returns (result: string)
    requires text == "{" + PrintMembers(ms)
    ensures result == UpdateText(ms, name, clientToken)
  {
    hide PrintMembers;
    result := text;
    if clientToken != "" {
      result := result + ",\"" + name + "\":\"" + clientToken + "\"";
    }
    result := result + "}";
  }

  method StartUpdate(executionStatus: string) returns (result: string)
    requires NoSpecial("status") && NoSpecial(executionStatus)
    ensures result == "{" + PrintMembers([Member("status", JString(executionStatus))])
  {
    hide NoSpecial, Escaped;
    NothingEscaped("status");
    NothingEscaped(executionStatus);
    result := "{\"status\":\"" + executionStatus + "\"";
    assert PrintMember(Member("status", JString(executionStatus))) == "\"status\":\"" + executionStatus + "\"";
  }

  // ---------- the client token ----------

  /** Neither a quote nor a backslash. */
  predicate Plain(s: string) {
    forall i :: 0 <= i < |s| ==> s[i] != QUOTE && s[i] != BACKSLASH
  }

  lemma {:induction false} PlainIsRead(s: string, rest: string)
    requires Plain(s)
    ensures ReadText(s + [QUOTE] + rest) == Some((s, rest))
    decreases |s|
  {
    var text := s + [QUOTE] + rest;
    if s == [] {
      assert text[1..] == rest;
    } else {
      PlainIsRead(s[1..], rest);
      assert text[1..] == s[1..] + [QUOTE] + rest && [s[0]] + s[1..] == s;
    }
  }

  /** A text that was read without an escape stands in the input as it is. */
  lemma {:induction false} ReadWithoutEscape(s: string)
    ensures var r := ReadText(s);
            r.Some? && |r.value.0| + 1 + |r.value.1| == |s| ==> Plain(r.value.0)
    decreases |s|
  {
    if s != [] && s[0] != QUOTE && ReadChar(s).Some? {
      var (c, used) := ReadChar(s).value;
      ReadWithoutEscape(s[used..]);
      if ReadText(s[used..]).Some? {
        var (text, rest) := ReadText(s[used..]).value;
        assert ReadText(s).value.0 == [c] + text;
      }
    }
  }

  lemma RawTextRead(s: string, rest: string)
    ensures ReadText(s + [QUOTE] + rest) == Some((s, rest)) <==> Plain(s)
  {
    hide ReadText;
    ReadWithoutEscape(s + [QUOTE] + rest);
    if Plain(s) {
      PlainIsRead(s, rest);
    }
  }

  /** What the token adds to the document, if it is read as it was meant. */
  function TokenMember(name: string, token: string): seq<Member> {
    if token == "" then [] else [Member(name, JString(token))]
  }

  /** The member the token makes when it is put in raw, and the end of the object behind it. */
  function RawMember(name: string, token: string): string {
    "\"" + name + "\":\"" + token + "\"}"
  }

  lemma RawMemberRead(name: string, token: string)
    requires token != "" && Plain(name)
    ensures ReadMembers(RawMember(name, token)) == Some((TokenMember(name, token), "")) <==> Plain(token)
  {
    hide ReadText, Plain;
    var s, b := RawMember(name, token), ":\"" + token + "\"}";
    assert s[1..] == name + [QUOTE] + b;
    RawTextRead(name, b);
    NoSpace(s);
    NoSpace(b);
    var v := b[1..];
    NoSpace(v);
    assert v[1..] == token + [QUOTE] + "}";
    RawTextRead(token, "}");
    NoSpace("}");
    var r := ReadText(v[1..]);
    if r.Some? && r.value.0 == token && SkipSpace(r.value.1) == "}" {
      assert |r.value.1| <= 1;
    }
  }

  /** The payload is read back as meant exactly when the client token holds neither a quote nor a backslash: it is the
      one text that is not escaped. */
  lemma UpdateRoundTrip(ms: seq<Member>, name: string, token: string)
    requires ms != [] && Plain(name)
    ensures ReadValue(UpdateText(ms, name, token)) == Some((JObject(ms + TokenMember(name, token)), "")) <==>
            token == "" || Plain(token)
  {
    hide ReadMembers, ReadText, Plain, PrintMembers, RawMember;
    if token == "" {
      assert UpdateText(ms, name, token) == Print(JObject(ms)) + "";
      ValueRoundTrip(JObject(ms), "");
      assert ms + [] == ms;
    } else {
      var later := RawMember(name, token);
      WithRawMember(ms, name, token);
      MembersPrefix(ms, later);
      RawMemberRead(name, token);
      if ReadMembers(later).Some? {
        SameTail(ms, ReadMembers(later).value.0, TokenMember(name, token));
      }
    }
  }

  lemma WithRawMember(ms: seq<Member>, name: string, token: string)
    requires ms != [] && token != ""
    ensures ReadValue(UpdateText(ms, name, token)) ==
            match ReadMembers(PrintMembers(ms) + ("," + RawMember(name, token)))
            case None => None
            case Some((members, rest)) => Some((JObject(members), rest))
  {
    hide ReadMembers, PrintMembers, ReadText, RawMember;
    MembersStart(ms, "," + RawMember(name, token));
    RawText(ms, name, token);
  }

  lemma RawText(ms: seq<Member>, name: string, token: string)
    requires token != ""
    ensures UpdateText(ms, name, token) == "{" + (PrintMembers(ms) + ("," + RawMember(name, token)))
  {
    hide PrintMembers;
  }

  lemma SameTail(ms: seq<Member>, a: seq<Member>, b: seq<Member>)
    ensures ms + a == ms + b <==> a == b
  {
    assert (ms + a)[|ms|..] == a && (ms + b)[|ms|..] == b;
  }

  /** What the service reads from the payload of an update. */
  lemma UpdatePayloadRead(u: Update, order: seq<string>, token: string)
    requires WalkOf(order, u.details)
    ensures ReadValue(UpdateText(UpdateMembers(u, order), "clientToken", token)) ==
            Some((JObject(UpdateMembers(u, order) + TokenMember("clientToken", token)), "")) <==>
            token == "" || Plain(token)
  {
    assert Plain("clientToken");
    hide ReadValue, Plain, UpdateMembers;
    UpdateRoundTrip(UpdateMembers(u, order), "clientToken", token);
  }
}
