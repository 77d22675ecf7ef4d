/**
 * The pure pieces of contracts/views.py: reading the submitted form fields, the schedule
 * validation of contract_create, get_client_ip, the filename sanitising of contract_pdf,
 * str.strip and the user lookups of add_contract_party.
 */
module ViewHelpers {
  import opened Models

  /** A POSTed date field as seen by datetime.strptime(value, '%Y-%m-%d'). */
  datatype DateField =
    | Absent        // the key is missing: request.POST.get gives None
    | Empty         // the key is present with the empty string
    | Malformed     // a string strptime refuses
    | Given(date: Date)

  /** A POSTed integer field as seen by int(value). */
  datatype IntField =
    | Absent        // None
    | Empty         // ''
    | Malformed     // a non-empty string int() refuses
    | Given(n: int)

  /** Python truthiness of the raw field: None and '' are falsy, every other string is truthy. */
  predicate IntFieldTruthy(f: IntField)
  {
    f.Malformed? || f.Given?
  }

  predicate DateFieldTruthy(f: DateField)
  {
    f.Malformed? || f.Given?
  }

  /** The reasons a view redirects back with an error message and changes nothing. */
  datatype Refusal =
    | PastStartDate
    | InvalidDateFormat
    | MissingDuration
    | InvalidDuration
    | IntegrityBroken
    | NotEditable
    | NotDeletable
    | NotDeclined
    | RemovalBlocked
    | AlreadyCompleted
    | WrongCode
    | InvalidCode
    | AlreadySigned
    | AlreadyParty

  /** The timing fields of a new contract once contract_create has accepted them. */
  datatype Schedule =
    | Scheduled(start: Date, months: Option<int>)
    | Rejected(why: Refusal)
    | Crashed       // strptime(None) raises TypeError, which the view does not catch

  /** The longest duration contract_create accepts, in months (100 years). */
  const MaxDurationMonths := 1200

  /** The validation block of contract_create: start date, then duration. */
  function CheckSchedule(startDate: DateField, duration: IntField, isIndefinite: bool, today: Date): (s: Schedule)
    ensures s.Crashed? <==> startDate.Absent?
    ensures s == Rejected(InvalidDateFormat) <==> startDate.Empty? || startDate.Malformed?
    ensures s == Rejected(PastStartDate) <==> startDate.Given? && DateBefore(startDate.date, today)
    ensures s == Rejected(MissingDuration) <==>
              startDate.Given? && !DateBefore(startDate.date, today) && !isIndefinite && !IntFieldTruthy(duration)
    ensures s.Scheduled? ==> startDate == DateField.Given(s.start) && !DateBefore(s.start, today)
    ensures s.Scheduled? ==> (s.months.None? <==> isIndefinite)
    ensures s.Scheduled? && s.months.Some? ==> duration == IntField.Given(s.months.value) && 1 <= s.months.value <= MaxDurationMonths
    ensures startDate.Given? && !DateBefore(startDate.date, today) && !isIndefinite && duration.Given?
            ==> (s.Scheduled? <==> 1 <= duration.n <= MaxDurationMonths)
  {
    match startDate
    case Absent => Crashed
    case Empty => Rejected(InvalidDateFormat)
    case Malformed => Rejected(InvalidDateFormat)
    case Given(d) =>
      if DateBefore(d, today) then Rejected(PastStartDate)
      else if !isIndefinite && !IntFieldTruthy(duration) then Rejected(MissingDuration)
      else if isIndefinite then Scheduled(d, None)
      else match duration
        case Given(n) =>
          if n <= 0 || n > MaxDurationMonths then Rejected(InvalidDuration) else Scheduled(d, Some(n))
        case _ => Rejected(InvalidDuration)
  }

  /** Every refusal of contract_create's validation is one of its four messages. */
  lemma CheckScheduleRefusals(startDate: DateField, duration: IntField, isIndefinite: bool, today: Date)
    ensures CheckSchedule(startDate, duration, isIndefinite, today).Rejected? ==>
              CheckSchedule(startDate, duration, isIndefinite, today).why in {PastStartDate, InvalidDateFormat, MissingDuration, InvalidDuration}
  {
  }

  /** s up to, not including, its first comma: str.split(',')[0]. */
  function UpToComma(s: string): (r: string)
    ensures r <= s && ',' !in r
    ensures |r| < |s| ==> s[|r|] == ','
    ensures ',' !in s ==> r == s
  {
    if |s| == 0 || s[0] == ',' then "" else [s[0]] + UpToComma(s[1..])
  }

  /** get_client_ip: the first entry of X-Forwarded-For when that header is non-empty, else REMOTE_ADDR. */
  function GetClientIp(forwardedFor: Option<string>, remoteAddr: Option<string>): (ip: Option<string>)
    ensures forwardedFor.Some? && forwardedFor.value != "" ==>
              ip.Some? && ip.value <= forwardedFor.value && ',' !in ip.value
              && (|ip.value| == |forwardedFor.value| || forwardedFor.value[|ip.value|] == ',')
    ensures forwardedFor.Some? && forwardedFor.value != "" && ',' !in forwardedFor.value ==> ip == forwardedFor
    ensures forwardedFor.None? || forwardedFor.value == "" ==> ip == remoteAddr
  {
    if forwardedFor.Some? && forwardedFor.value != "" then Some(UpToComma(forwardedFor.value)) else remoteAddr
  }

  /**
   * A character that re.sub(r'[^\w\-_\.]', '_', ...) keeps: a word character, '-', '_' or '.'.
   * Python's \w is Unicode-aware; every non-ASCII character is taken to be a word character here.
   */
  predicate IsFilenameChar(c: char)
  {
    ('a' <= c <= 'z') || ('A' <= c <= 'Z') || ('0' <= c <= '9') || c == '_' || c == '-' || c == '.'
    || c as int >= 128
  }

  /** The longest file name contract_pdf produces, before the .pdf suffix. */
  const MaxFilenameLength := 100

  function ReplaceUnsafe(s: string): (r: string)
    ensures |r| == |s|
    ensures forall i :: 0 <= i < |s| ==> r[i] == (if IsFilenameChar(s[i]) then s[i] else '_')
  {
    if |s| == 0 then "" else [if IsFilenameChar(s[0]) then s[0] else '_'] + ReplaceUnsafe(s[1..])
  }

  /** The file name contract_pdf derives from a contract title. */
  function SanitizeFilename(title: string): (name: string)
  {
    var r := ReplaceUnsafe(title);
    if |r| <= MaxFilenameLength then r else r[..MaxFilenameLength]
  }

  /** The name keeps the title's characters position by position, replacing each unsafe one by '_'. */
  lemma SanitizeFilenameMeaning(title: string)
    ensures |SanitizeFilename(title)| == if |title| <= MaxFilenameLength then |title| else MaxFilenameLength
    ensures forall i :: 0 <= i < |SanitizeFilename(title)| ==> IsFilenameChar(SanitizeFilename(title)[i])
    ensures forall i :: 0 <= i < |SanitizeFilename(title)| && IsFilenameChar(title[i]) ==> SanitizeFilename(title)[i] == title[i]
    ensures forall i :: 0 <= i < |SanitizeFilename(title)| && !IsFilenameChar(title[i]) ==> SanitizeFilename(title)[i] == '_'
  {
  }

  /** Sanitising an already sanitised name changes nothing. */
  lemma {:induction false} SanitizeFilenameIdempotent(title: string)
    ensures SanitizeFilename(SanitizeFilename(title)) == SanitizeFilename(title)
  {
    var n := SanitizeFilename(title);
    SanitizeFilenameMeaning(title);
    var m := ReplaceUnsafe(n);
    assert m == n by {
      assert forall i :: 0 <= i < |n| ==> m[i] == n[i];
    }
  }

  /**
   * The characters str.strip() removes: those for which Python's str.isspace() holds, that is
   * tab through carriage return, the four separators \x1c-\x1f, space, NEL, no-break space,
   * and the Unicode space separators, line and paragraph separators.
   */
  predicate IsSpace(c: char)
  {
    ('\U{9}' <= c <= '\U{D}') || ('\U{1C}' <= c <= '\U{20}') || c == '\U{85}' || c == '\U{A0}'
    || c == '\U{1680}' || ('\U{2000}' <= c <= '\U{200A}') || c == '\U{2028}' || c == '\U{2029}'
    || c == '\U{202F}' || c == '\U{205F}' || c == '\U{3000}'
  }

  function TrimStart(s: string): (r: string)
    ensures |r| <= |s| && r == s[|s| - |r|..]
    ensures forall i :: 0 <= i < |s| - |r| ==> IsSpace(s[i])
    ensures |r| > 0 ==> !IsSpace(r[0])
  {
    if |s| > 0 && IsSpace(s[0]) then TrimStart(s[1..]) else s
  }

  function TrimEnd(s: string): (r: string)
    ensures |r| <= |s| && r == s[..|r|]
    ensures forall i :: |r| <= i < |s| ==> IsSpace(s[i])
    ensures |r| > 0 ==> !IsSpace(r[|r| - 1])
  {
    if |s| > 0 && IsSpace(s[|s| - 1]) then TrimEnd(s[..|s| - 1]) else s
  }

  /** str.strip(): s without its leading and trailing whitespace. */
  function Strip(s: string): string
  {
    TrimEnd(TrimStart(s))
  }

  /** Strip removes whitespace only at the ends, keeps the middle intact, and leaves none at either end. */
  lemma StripMeaning(s: string)
    ensures exists i, j ::
              0 <= i <= j <= |s| && Strip(s) == s[i..j]
              && (forall k :: 0 <= k < i ==> IsSpace(s[k])) && (forall k :: j <= k < |s| ==> IsSpace(s[k]))
    ensures |Strip(s)| > 0 ==> !IsSpace(Strip(s)[0]) && !IsSpace(Strip(s)[|Strip(s)| - 1])
  {
    var t := TrimStart(s);
    var i := |s| - |t|;
    var j := i + |TrimEnd(t)|;
    assert Strip(s) == s[i..j];
    assert forall k :: j <= k < |s| ==> s[k] == t[k - i];
  }

  /** Stripping twice is stripping once. */
  lemma StripIdempotent(s: string)
    ensures Strip(Strip(s)) == Strip(s)
  {
    StripMeaning(s);
    var r := Strip(s);
    if |r| > 0 {
      assert TrimStart(r) == r;
      assert TrimEnd(r) == r;
    }
  }

  /** The information separators and the no-break space count as whitespace, as for str.strip(). */
  lemma StripRemovesSeparators()
    ensures Strip("\U{1F}\U{1C}no\U{A0}") == "no"
  {
    var s := "\U{1F}\U{1C}no\U{A0}";
    var t := "\U{1C}no\U{A0}";
    var v := "no\U{A0}";
    assert IsSpace(s[0]) && s[1..] == t;
    assert IsSpace(t[0]) && t[1..] == v;
    assert !IsSpace(v[0]);
    assert TrimStart(s) == v;
    assert IsSpace(v[2]) && v[..2] == "no";
    assert !IsSpace("no"[1]);
  }

  /** Which user add_contract_party binds the new party to, if any. */
  datatype Resolution =
    | NoUser
    | Registered(user: User)
    | LookupFailed   // int() of user_id fails, or User.objects.get(email=...) finds several users

  function UsersWithEmail(us: seq<User>, email: string): nat
  {
    Count(us, (x: User) => x.email == email)
  }

  /**
   * The user id when one is posted, otherwise the unique user with the posted e-mail address.
   * Without a posted e-mail the lookup is email IS NULL, which no user row matches.
   */
  function ResolveUser(us: seq<User>, userId: IntField, email: Option<string>): (r: Resolution)
    ensures r.LookupFailed? <==> userId.Malformed? || (!IntFieldTruthy(userId) && email.Some? && UsersWithEmail(us, email.value) > 1)
    ensures r.Registered? && userId.Given? ==> r.user.id == userId.n && r.user in us
    ensures r.Registered? && !userId.Given? ==> email.Some? && r.user.email == email.value && r.user in us
    ensures r.NoUser? && userId.Given? ==> forall x :: x in us ==> x.id != userId.n
    ensures r.NoUser? && !userId.Given? && email.Some? ==> forall x :: x in us ==> x.email != email.value
    ensures !IntFieldTruthy(userId) && email.None? ==> r.NoUser?
  {
    match userId
    case Malformed => LookupFailed
    case Given(n) =>
      if n < 0 then NoUser
      else (
        match UserIndex(us, n)
        case Some(k) => Registered(us[k])
        case None => NoUser)
    case _ =>
      match email
      case None => NoUser
      case Some(e) =>
        var k := IndexWhere(us, (x: User) => x.email == e);
        if UsersWithEmail(us, e) > 1 then LookupFailed
        else if k.Some? then Registered(us[k.value])
        else
          CountZeroEmail(us, e);
          NoUser
  }

  lemma CountZeroEmail(us: seq<User>, email: string)
    requires IndexWhere(us, (x: User) => x.email == email).None?
    ensures forall x :: x in us ==> x.email != email
  {
  }
}
