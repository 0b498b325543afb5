/** What the payload of a job execution update says, member by member (src/jobs/Jobs.cpp:113-132, 201-235). */
module JobsUpdate {
  import opened MqttTypes
  import opened JobsJson

  /** The value of the first member of that name. */
  function ValueOf(ms: seq<Member>, name: string): Option<Json> {
    if ms == [] then None
    else if ms[0].name == name then Some(ms[0].value)
    else ValueOf(ms[1..], name)
  }

  lemma {:induction false} ValueOfAppend(a: seq<Member>, b: seq<Member>, name: string)
    ensures ValueOf(a + b, name) == if ValueOf(a, name).Some? then ValueOf(a, name) else ValueOf(b, name)
    decreases |a|
  {
    if a == [] {
      assert a + b == b;
    } else {
      ValueOfAppend(a[1..], b, name);
      assert (a + b)[1..] == a[1..] + b;
    }
  }

  /** The number a text of decimal digits stands for. */
  function Decimal(s: string): nat {
    if s == [] || s[|s| - 1] < '0' then 0 else 10 * Decimal(s[..|s| - 1]) + (s[|s| - 1] as int - '0' as int)
  }

  /** Numbers are printed in decimal, without leading zeros. */
  lemma {:induction false} DigitsMeaning(n: nat)
    ensures Decimal(Digits(n)) == n && Digits(n) != [] && (n > 0 ==> Digits(n)[0] != '0')
    ensures forall i :: 0 <= i < |Digits(n)| ==> '0' <= Digits(n)[i] <= '9'
    decreases n
  {
    if n >= 10 {
      DigitsMeaning(n / 10);
      var last := [('0' as int + n % 10) as char];
      assert Digits(n)[..|Digits(n)| - 1] == Digits(n / 10);
    } else {
      assert Digits(n)[..0] == [];
    }
  }

  const NAMES: seq<string> :=
    ["status", "statusDetails", "expectedVersion", "executionNumber", "includeJobExecutionState", "includeJobDocument",
     "clientToken"]

  /** One part of the document holds at most the member of its name. */
  lemma PartsSay(u: Update, order: seq<string>, token: string, name: string)
    requires forall k :: k in order ==> k in u.details
    ensures ValueOf([Member("status", JString(StatusName(u.status)))], name) ==
            if name == "status" then Some(JString(StatusName(u.status))) else None
    ensures ValueOf(OptionalDetails("statusDetails", u.details, order), name) ==
            if name == "statusDetails" && u.details != map[] then Some(StatusDetails(u.details, order)) else None
    ensures forall part: string, n: int ::
              ValueOf(OptionalNumber(part, n), name) == if name == part && n > 0 then Some(JString(Digits(n))) else None
    ensures forall part: string, value: bool ::
              ValueOf(OptionalFlag(part, value), name) == if name == part && value then Some(JString("true")) else None
    ensures ValueOf(TokenMember("clientToken", token), name) ==
            if name == "clientToken" && token != "" then Some(JString(token)) else None
  {
    hide Digits, StatusDetails, StatusName;
  }

  function Either(a: Option<Json>, b: Option<Json>): Option<Json> {
    if a.Some? then a else b
  }

  lemma WholeSays(u: Update, order: seq<string>, token: string, name: string)
    requires forall k :: k in order ==> k in u.details
    ensures ValueOf(UpdateMembers(u, order) + TokenMember("clientToken", token), name) ==
            Either(Either(Either(Either(Either(Either(ValueOf([Member("status", JString(StatusName(u.status)))], name),
              ValueOf(OptionalDetails("statusDetails", u.details, order), name)),
              ValueOf(OptionalNumber("expectedVersion", u.expectedVersion), name)),
              ValueOf(OptionalNumber("executionNumber", u.executionNumber), name)),
              ValueOf(OptionalFlag("includeJobExecutionState", u.includeJobExecutionState), name)),
              ValueOf(OptionalFlag("includeJobDocument", u.includeJobDocument), name)),
              ValueOf(TokenMember("clientToken", token), name))
  {
    hide ValueOf, OptionalDetails, OptionalNumber, OptionalFlag, TokenMember, StatusName;
    var m0 := [Member("status", JString(StatusName(u.status)))];
    var m1 := m0 + OptionalDetails("statusDetails", u.details, order);
    var m2 := m1 + OptionalNumber("expectedVersion", u.expectedVersion);
    var m3 := m2 + OptionalNumber("executionNumber", u.executionNumber);
    var m4 := m3 + OptionalFlag("includeJobExecutionState", u.includeJobExecutionState);
    var m5 := m4 + OptionalFlag("includeJobDocument", u.includeJobDocument);
    ValueOfAppend(m0, OptionalDetails("statusDetails", u.details, order), name);
    ValueOfAppend(m1, OptionalNumber("expectedVersion", u.expectedVersion), name);
    ValueOfAppend(m2, OptionalNumber("executionNumber", u.executionNumber), name);
    ValueOfAppend(m3, OptionalFlag("includeJobExecutionState", u.includeJobExecutionState), name);
    ValueOfAppend(m4, OptionalFlag("includeJobDocument", u.includeJobDocument), name);
    ValueOfAppend(m5, TokenMember("clientToken", token), name);
  }

  /** The document of an update gives the status by its name in the service; the details where there are any; version and
      number in decimal where they are positive; the flags that are set as "true"; the token where there is one; and
      nothing else under any of these names. */
  lemma UpdateSays(u: Update, order: seq<string>, token: string)
    requires WalkOf(order, u.details)
    ensures var ms := UpdateMembers(u, order) + TokenMember("clientToken", token);
            && ValueOf(ms, NAMES[0]) == Some(JString(StatusName(u.status)))
            && (ValueOf(ms, NAMES[1]) ==
                if u.details == map[] then None else Some(JObject(DetailMembers(u.details, order))))
            && (ValueOf(ms, NAMES[2]) == if u.expectedVersion > 0 then Some(JString(Digits(u.expectedVersion))) else None)
            && (ValueOf(ms, NAMES[3]) == if u.executionNumber > 0 then Some(JString(Digits(u.executionNumber))) else None)
            && (ValueOf(ms, NAMES[4]) == if u.includeJobExecutionState then Some(JString("true")) else None)
            && (ValueOf(ms, NAMES[5]) == if u.includeJobDocument then Some(JString("true")) else None)
            && (ValueOf(ms, NAMES[6]) == if token != "" then Some(JString(token)) else None)
  {
    hide UpdateMembers, ValueOf, OptionalDetails, OptionalNumber, OptionalFlag, TokenMember, StatusName, Digits;
    forall i | 0 <= i < 7
      ensures ValueOf(UpdateMembers(u, order) + TokenMember("clientToken", token), NAMES[i]) ==
              if i == 0 then Some(JString(StatusName(u.status)))
              else if i == 1 then if u.details == map[] then None else Some(StatusDetails(u.details, order))
              else if i == 2 then if u.expectedVersion > 0 then Some(JString(Digits(u.expectedVersion))) else None
              else if i == 3 then if u.executionNumber > 0 then Some(JString(Digits(u.executionNumber))) else None
              else if i == 4 then if u.includeJobExecutionState then Some(JString("true")) else None
              else if i == 5 then if u.includeJobDocument then Some(JString("true")) else None
              else if token != "" then Some(JString(token)) else None
    {
      WholeSays(u, order, token, NAMES[i]);
      PartsSay(u, order, token, NAMES[i]);
    }
  }

  /** The names of the states. */
  lemma StatusNames()
    ensures StatusName(Queued) == "QUEUED" && StatusName(InProgress) == "IN_PROGRESS" && StatusName(Failed) == "FAILED"
    ensures StatusName(Succeeded) == "SUCCEEDED" && StatusName(Canceled) == "CANCELED"
    ensures StatusName(Rejected) == "REJECTED" && StatusName(NotSet) == "" && StatusName(Unknown) == ""
  {
  }
}
