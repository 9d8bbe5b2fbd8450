/**
 * The profile logic of the `account` app's serializers: the pop-image cap,
 * the choice-list and date-of-birth validators, the age computed from the
 * date of birth, the normalisation of comma-separated list columns, the
 * profile update, sign-up validation and username defaulting, and OTP
 * verification. The user model is not part of this model; its choice lists
 * are parameters, and a user row is the handful of columns these serializers
 * touch plus a map of the columns the profile serializer may write.
 */
module AccountSerializers {
  import opened Wrappers
  import opened Calendar
  import Text

  // ---------------------------------------------------------------- pop images

  const MaxPopImages := 7

  /** `MakeYourProfilePopSerializer.validate`: a new image is refused once the user has 7; an update is never capped. */
  function ValidatePopImage(creating: bool, count: nat): (r: Result<(), string>)
    ensures r.Failure? <==> creating && count >= MaxPopImages
    ensures r.Failure? ==> r.error == "You can upload a maximum of 7 pop-up images."
  {
    if creating && count >= MaxPopImages then Failure("You can upload a maximum of 7 pop-up images.") else Success(())
  }

  /** Uploading k new images one after another, from `count`: the final count, or `None` once one is refused. */
  function UploadImages(count: nat, k: nat): Option<nat>
    decreases k
  {
    if k == 0 then Some(count)
    else if ValidatePopImage(true, count).Failure? then None
    else UploadImages(count + 1, k - 1)
  }

  /** A run of k > 0 uploads from `count` images is accepted in full exactly when it stays within 7. */
  lemma {:induction false} UploadsStayWithinCap(count: nat, k: nat)
    requires k > 0
    ensures UploadImages(count, k).Some? <==> count + k <= MaxPopImages
    ensures UploadImages(count, k).Some? ==> UploadImages(count, k).value == count + k
    decreases k
  {
    if k > 1 && count < MaxPopImages {
      UploadsStayWithinCap(count + 1, k - 1);
    }
  }

  // ---------------------------------------------------------------- validators

  /**
   * `validate_looking_for` / `validate_hobbies`: the first value not among the
   * choices is reported; a list of valid choices is returned unchanged.
   */
  method ValidateChoices(value: seq<string>, choices: seq<string>) returns (r: Result<seq<string>, string>)
    ensures r.Success? <==> forall i :: 0 <= i < |value| ==> value[i] in choices
    ensures r.Success? ==> r.value == value
    ensures r.Failure? ==> exists i :: 0 <= i < |value| && value[i] !in choices
                                       && (forall j :: 0 <= j < i ==> value[j] in choices)
                                       && r.error == "Invalid choice: " + value[i]
  {
    for i := 0 to |value|
      invariant forall j :: 0 <= j < i ==> value[j] in choices
    {
      if value[i] !in choices {
        return Failure("Invalid choice: " + value[i]);
      }
    }
    return Success(value);
  }

  /** `validate_dob`: a date of birth after today is refused; anything else passes unchanged. */
  function ValidateDob(value: Option<Date>, today: Date): (r: Result<Option<Date>, string>)
    ensures r.Failure? <==> value.Some? && DateBefore(today, value.value)
    ensures r.Success? ==> r.value == value
  {
    if value.Some? && DateBefore(today, value.value) then Failure("Date of birth cannot be in the future.")
    else Success(value)
  }

  // ---------------------------------------------------------------- age

  /** `(a.month, a.day) < (b.month, b.day)`, Python's tuple comparison. */
  predicate MonthDayBefore(a: Date, b: Date)
  {
    a.month < b.month || (a.month == b.month && a.day < b.day)
  }

  /** The age stored on a profile update: years between the birth year and today, one fewer before this year's birthday. */
  function Age(today: Date, dob: Date): (age: int)
    ensures !DateBefore(today, dob) ==> age >= 0
  {
    today.year - dob.year - (if MonthDayBefore(today, dob) then 1 else 0)
  }

  /** The y-th birthday of `dob` has come by `today` (calendar order on year, month, day). */
  predicate BirthdayReached(dob: Date, y: int, today: Date)
  {
    !DateBefore(today, Date(dob.year + y, dob.month, dob.day))
  }

  /**
   * The age counts completed years: its birthday has been reached and the next
   * one has not. A date of birth not after today gives an age of at least 0.
   */
  lemma AgeCountsCompletedYears(today: Date, dob: Date)
    ensures BirthdayReached(dob, Age(today, dob), today)
    ensures !BirthdayReached(dob, Age(today, dob) + 1, today)
    ensures !DateBefore(today, dob) ==> Age(today, dob) >= 0
    ensures ValidateDob(Some(dob), today).Success? ==> Age(today, dob) >= 0
  {
  }

  /** The age is the only number of completed years: any y with the two properties is it. */
  lemma AgeIsUnique(today: Date, dob: Date, y: int)
    requires BirthdayReached(dob, y, today) && !BirthdayReached(dob, y + 1, today)
    ensures y == Age(today, dob)
  {
    AgeCountsCompletedYears(today, dob);
  }

  // ---------------------------------------------------------------- list columns

  /** A column value as the serializers see it; a multi-select column is stored as one comma-joined string. */
  datatype Value = Text(s: string) | Items(items: seq<string>) | Day(date: Date) | Number(n: int) | Null

  /** The comma-separated string to its list; the empty string to the empty list. */
  function SplitList(s: string): seq<string>
  {
    if s == "" then [] else Text.Split(s, ',')
  }

  /** `UpdateProfileSerializer.to_representation` for `hobbies` and `looking_for`. */
  function ProfileListField(v: Value): seq<string>
  {
    match v
    case Text(s) => SplitList(s)
    case Items(items) => items
    case _ => []
  }

  /** `UserSerializer.to_representation` for `looking_for`: only a string is rewritten. */
  function UserLookingFor(v: Option<Value>): Option<Value>
  {
    if v.Some? && v.value.Text? then Some(Items(SplitList(v.value.s))) else v
  }

  /** How a multi-select column stores a list: its items joined with commas. */
  function StoreList(items: seq<string>): string
  {
    if items == [] then "" else Text.Join(items, ',')
  }

  /**
   * Both normalisers agree on a stored string, and undo the storage: a list
   * of non-empty, comma-free items is rendered back as itself, and a stored
   * non-empty string is the join of what it renders.
   */
  lemma ListColumnRoundTrip(items: seq<string>, s: string)
    requires forall i :: 0 <= i < |items| ==> items[i] != "" && ',' !in items[i]
    ensures ProfileListField(Text(StoreList(items))) == items
    ensures UserLookingFor(Some(Text(s))) == Some(Items(ProfileListField(Text(s))))
    ensures s != "" ==> Text.Join(ProfileListField(Text(s)), ',') == s
  {
    if items != [] {
      Text.SplitJoin(items, ',');
      assert items[0] != "";
      assert |Text.Join(items, ',')| >= |items[0]| by { JoinIsAtLeastFirst(items, ','); }
    }
    if s != "" {
      Text.JoinSplit(s, ',');
    }
  }

  lemma JoinIsAtLeastFirst(parts: seq<string>, sep: char)
    requires |parts| >= 1
    ensures |Text.Join(parts, sep)| >= |parts[0]|
  {
  }

  // ---------------------------------------------------------------- user rows

  /** The columns of a user row these serializers read or write. */
  datatype Account = Account(
    email: string,
    username: string,
    isVerified: bool,
    otp: Option<string>,
    otpExpired: Option<int>,
    columns: map<string, Value>)

  const ListColumns: set<string> := {"hobbies", "looking_for"}

  /**
   * Whether the update writes column k: every validated field is written,
   * except that a list column popped as `None` is skipped.
   */
  predicate Provided(data: map<string, Value>, k: string)
  {
    k in data && !(k in ListColumns && data[k].Null?)
  }

  /**
   * `UpdateProfileSerializer.update` on the writable columns, before the age:
   * the list columns are popped and assigned only when not `None`, and every
   * other validated field is copied one for one.
   */
  function CopyFields(columns: map<string, Value>, data: map<string, Value>): map<string, Value>
  {
    var plain := map k | k in data && k !in ListColumns :: data[k];
    var c1 := columns + plain;
    var c2 := if "hobbies" in data && !data["hobbies"].Null? then c1["hobbies" := data["hobbies"]] else c1;
    if "looking_for" in data && !data["looking_for"].Null? then c2["looking_for" := data["looking_for"]] else c2
  }

  /** The copy step writes exactly the provided fields and keeps every other column. */
  lemma CopyFieldsWritesSubmitted(columns: map<string, Value>, data: map<string, Value>)
    ensures var c := CopyFields(columns, data);
            && (forall k :: k in c <==> k in columns || Provided(data, k))
            && (forall k | Provided(data, k) :: c[k] == data[k])
            && (forall k | k in columns && !Provided(data, k) :: c[k] == columns[k])
  {
    var plain := map k | k in data && k !in ListColumns :: data[k];
    assert plain.Keys == data.Keys - ListColumns;
  }

  /** The whole update: the copy step, then, when the row has a date of birth, the age recomputed from it. */
  function ProfileAfterUpdate(columns: map<string, Value>, data: map<string, Value>, today: Date): map<string, Value>
  {
    var c := CopyFields(columns, data);
    if "dob" in c && c["dob"].Day? then c["age" := Number(Age(today, c["dob"].date))] else c
  }

  /**
   * After a profile update every provided field holds its submitted value,
   * and every other column keeps its value (a list column submitted as null
   * included), except the age, which follows the date of birth whenever there
   * is one.
   */
  lemma ProfileUpdateCopiesFields(columns: map<string, Value>, data: map<string, Value>, today: Date)
    ensures var c := ProfileAfterUpdate(columns, data, today);
            && (forall k | Provided(data, k) && k != "age" :: k in c && c[k] == data[k])
            && (forall k | k in columns && !Provided(data, k) && k != "age" :: k in c && c[k] == columns[k])
            && (forall k | k in c :: k in columns || Provided(data, k) || k == "age")
            && ("dob" in c && c["dob"].Day? ==> c["age"] == Number(Age(today, c["dob"].date)))
            && (!("dob" in c && c["dob"].Day?) ==>
                  ("age" in c <==> "age" in columns || "age" in data)
                  && ("age" in c ==> c["age"] == if "age" in data then data["age"] else columns["age"]))
            && (!Provided(data, "hobbies") ==> ("hobbies" in c <==> "hobbies" in columns))
            && (!Provided(data, "looking_for") ==> ("looking_for" in c <==> "looking_for" in columns))
  {
    CopyFieldsWritesSubmitted(columns, data);
  }

  /** One user row, updated in place by the profile and OTP serializers. */
  class UserRow {
    var email: string
    var username: string
    var isVerified: bool
    var otp: Option<string>
    var otpExpired: Option<int>
    var columns: map<string, Value>

    function Snapshot(): Account
      reads this
    {
      Account(email, username, isVerified, otp, otpExpired, columns)
    }

    constructor (a: Account)
      ensures Snapshot() == a
    {
      email, username, isVerified := a.email, a.username, a.isVerified;
      otp, otpExpired, columns := a.otp, a.otpExpired, a.columns;
    }

    /** `UpdateProfileSerializer.update`: the `setattr` loop, the two list columns, then the age. */
    method UpdateProfile(data: map<string, Value>, today: Date)
      modifies this
      ensures columns == ProfileAfterUpdate(old(columns), data, today)
      ensures email == old(email) && username == old(username) && isVerified == old(isVerified)
      ensures otp == old(otp) && otpExpired == old(otpExpired)
    {
      var plain := map k | k in data && k !in ListColumns :: data[k];
      var rest := plain.Keys;
      while rest != {}
        invariant rest <= plain.Keys
        invariant columns == old(columns) + map k | k in plain && k !in rest :: plain[k]
        invariant email == old(email) && username == old(username) && isVerified == old(isVerified)
        invariant otp == old(otp) && otpExpired == old(otpExpired)
        decreases rest
      {
        var k :| k in rest;
        columns := columns[k := plain[k]];
        rest := rest - {k};
      }
      assert (map k | k in plain && k !in rest :: plain[k]) == plain;
      if "hobbies" in data && !data["hobbies"].Null? {
        columns := columns["hobbies" := data["hobbies"]];
      }
      if "looking_for" in data && !data["looking_for"].Null? {
        columns := columns["looking_for" := data["looking_for"]];
      }
      assert columns == CopyFields(old(columns), data);
      if "dob" in columns && columns["dob"].Day? {
        columns := columns["age" := Number(Age(today, columns["dob"].date))];
      }
    }

    /** `VerifyOTPSerializer.save`: verified, and the OTP and its expiry cleared; nothing else. */
    method VerifySave()
      modifies this
      ensures Snapshot() == VerifiedAccount(old(Snapshot()))
    {
      isVerified := true;
      otp := None;
      otpExpired := None;
    }
  }

  // ---------------------------------------------------------------- sign-up

  datatype SignupData = SignupData(email: string, password: string, confirmPassword: string)

  datatype SignupError = PasswordTooShort | ConfirmationTooShort | PasswordsDoNotMatch | EmailRegistered

  const MinPasswordLength := 6

  /**
   * The sign-up serializer's checks in order: the two declared minimum
   * lengths, then `validate`: a mismatched confirmation before an email
   * already registered.
   */
  function ValidateSignup(data: SignupData, registered: set<string>): (r: Result<SignupData, SignupError>)
    ensures r.Success? <==> |data.password| >= MinPasswordLength && |data.confirmPassword| >= MinPasswordLength
                             && data.password == data.confirmPassword && data.email !in registered
    ensures r.Success? ==> r.value == data
    ensures r == Failure(PasswordsDoNotMatch) <==> (|data.password| >= MinPasswordLength
                                                   && |data.confirmPassword| >= MinPasswordLength
                                                   && data.password != data.confirmPassword)
  {
    if |data.password| < MinPasswordLength then Failure(PasswordTooShort)
    else if |data.confirmPassword| < MinPasswordLength then Failure(ConfirmationTooShort)
    else if data.password != data.confirmPassword then Failure(PasswordsDoNotMatch)
    else if data.email in registered then Failure(EmailRegistered)
    else Success(data)
  }

  /** `validated_data.get("username")` if non-empty, else the generated name. */
  function SignupUsername(validated: map<string, string>, generated: string): (name: string)
    ensures "username" in validated && validated["username"] != "" ==> name == validated["username"]
    ensures !("username" in validated && validated["username"] != "") ==> name == generated
  {
    if "username" in validated && validated["username"] != "" then validated["username"] else generated
  }

  /** The validated data of the sign-up serializer: its declared fields only. */
  function SignupValidated(data: SignupData): map<string, string>
  {
    map["email" := data.email, "password" := data.password, "confirm_password" := data.confirmPassword]
  }

  /**
   * `SignupSerialzier.create`: the new row has the email, a username, an
   * unverified state and the fresh OTP with its expiry. The serializer
   * declares no `username` field, so the username is always the generated one.
   */
  function SignupCreate(data: SignupData, generatedUsername: string, otp: string, expiry: int): (a: Account)
    ensures a.username == generatedUsername && a.email == data.email
    ensures !a.isVerified && a.otp == Some(otp) && a.otpExpired == Some(expiry)
  {
    var validated := SignupValidated(data);
    Account(validated["email"], SignupUsername(validated - {"password", "confirm_password"}, generatedUsername),
            false, Some(otp), Some(expiry), map[])
  }

  // ---------------------------------------------------------------- OTP verification

  datatype OtpOutcome = Verified(user: nat) | InvalidOrExpired | AlreadyVerified | MultipleMatches

  /** The rows `User.objects.get(otp=..., otp_expired__gte=now)` selects. */
  function OtpMatches(accounts: map<nat, Account>, code: string, now: int): set<nat>
  {
    set id | id in accounts && accounts[id].otp == Some(code)
                            && accounts[id].otpExpired.Some? && accounts[id].otpExpired.value >= now
  }

  /** A set holding x is exactly {x} when it has one element. */
  lemma SingletonBySize(s: set<nat>, x: nat)
    requires x in s
    ensures s == {x} <==> |s| == 1
  {
    if s != {x} {
      var y :| y in s && y != x;
      assert y in s - {x};
      assert |s - {x}| == |s| - 1;
    }
  }

  /**
   * `VerifyOTPSerializer.validate`: no matching row is an invalid or expired
   * OTP; one matching row is accepted unless already verified; several make
   * `get` raise an error the serializer does not catch.
   */
  function VerifyOtp(accounts: map<nat, Account>, code: string, now: int): (r: OtpOutcome)
    ensures r.Verified? ==> r.user in accounts && r.user in OtpMatches(accounts, code, now) && !accounts[r.user].isVerified
    ensures r.Verified? ==> OtpMatches(accounts, code, now) == {r.user}
    ensures r == InvalidOrExpired <==> OtpMatches(accounts, code, now) == {}
    ensures forall id | OtpMatches(accounts, code, now) == {id} ::
              id in accounts && r == (if accounts[id].isVerified then AlreadyVerified else Verified(id))
    ensures r == MultipleMatches <==> |OtpMatches(accounts, code, now)| > 1
  {
    var matches := OtpMatches(accounts, code, now);
    if matches == {} then InvalidOrExpired
    else
      var id :| id in matches;
      SingletonBySize(matches, id);
      if matches != {id} then MultipleMatches
      else if accounts[id].isVerified then AlreadyVerified
      else Verified(id)
  }

  /** The row after `VerifyOTPSerializer.save`. */
  function VerifiedAccount(a: Account): (a': Account)
    ensures a'.isVerified && a'.otp.None? && a'.otpExpired.None?
    ensures a'.email == a.email && a'.username == a.username && a'.columns == a.columns
  {
    a.(isVerified := true, otp := None, otpExpired := None)
  }

  /** An OTP is single-use: once a verification is saved, the same code no longer verifies that user. */
  lemma OtpIsSingleUse(accounts: map<nat, Account>, code: string, now: int, later: int)
    requires VerifyOtp(accounts, code, now).Verified?
    ensures var id := VerifyOtp(accounts, code, now).user;
            var accounts' := accounts[id := VerifiedAccount(accounts[id])];
            id !in OtpMatches(accounts', code, later) && VerifyOtp(accounts', code, later) != Verified(id)
  {
  }

  /**
   * A fresh sign-up whose OTP no other row shares verifies with that OTP until
   * it expires, and a second attempt after saving is refused.
   */
  lemma SignupThenVerify(accounts: map<nat, Account>, id: nat, data: SignupData, generated: string,
                         code: string, expiry: int, now: int)
    requires id !in accounts && now <= expiry
    requires forall k | k in accounts :: accounts[k].otp != Some(code)
    ensures var accounts1 := accounts[id := SignupCreate(data, generated, code, expiry)];
            && VerifyOtp(accounts1, code, now) == Verified(id)
            && var accounts2 := accounts1[id := VerifiedAccount(accounts1[id])];
               VerifyOtp(accounts2, code, now) == InvalidOrExpired
  {
    var accounts1 := accounts[id := SignupCreate(data, generated, code, expiry)];
    assert OtpMatches(accounts1, code, now) == {id};
    var accounts2 := accounts1[id := VerifiedAccount(accounts1[id])];
    assert OtpMatches(accounts2, code, now) == {};
  }
}
