/** The registration page: the live password-strength feedback computed as the
    password field changes, and the password gate applied on submit. */
module Register {
  import opened Wrappers
  import opened JsString
  import opened Seqs

  /** The values of the `passwordStrength` state: "", "good", "strong", "weak". */
  datatype Strength = NoStrength | Good | Strong | Weak

  function Label(s: Strength): string {
    match s
    case NoStrength => ""
    case Good => "good"
    case Strong => "strong"
    case Weak => "weak"
  }

  /** A JavaScript line terminator: what `.` in a regular expression does not match. */
  predicate IsLineTerminator(c: char) {
    c == '\n' || c == '\r' || c == '\U{2028}' || c == '\U{2029}'
  }

  /** Look-ahead `(?=.*[class])`: a character of the class occurs before any line terminator. */
  predicate LookAhead(pw: string, cls: char -> bool) {
    exists i :: 0 <= i < |pw| && cls(pw[i]) && forall j :: 0 <= j < i ==> !IsLineTerminator(pw[j])
  }

  predicate IsLetterOrDigit(c: char) { IsAsciiLetter(c) || IsDigit(c) }

  /** `/^(?=.*[a-z])(?=.*[A-Z])(?=.*\d)[a-zA-Z\d]{8,}$/.test(pw)` */
  predicate MatchesPasswordRegex(pw: string) {
    && LookAhead(pw, IsLower)
    && LookAhead(pw, IsUpper)
    && LookAhead(pw, IsDigit)
    && |pw| >= 8
    && forall i :: 0 <= i < |pw| ==> IsLetterOrDigit(pw[i])
  }

  /** `/[A-Z]/.test(pw)` */
  predicate HasUpperCase(pw: string) { exists i :: 0 <= i < |pw| && IsUpper(pw[i]) }
  /** `/[a-z]/.test(pw)` */
  predicate HasLowerCase(pw: string) { exists i :: 0 <= i < |pw| && IsLower(pw[i]) }
  /** `/\d/.test(pw)` */
  predicate HasNumber(pw: string) { exists i :: 0 <= i < |pw| && IsDigit(pw[i]) }
  /** `pw.length >= 8`, where the length counts UTF-16 code units. */
  predicate IsLongEnough(pw: string) { Utf16Length(pw) >= 8 }

  /** The branch `handleChange` takes for a new password value. */
  function Classify(pw: string): Strength {
    if pw == "" then NoStrength
    else if MatchesPasswordRegex(pw) then Good
    else if HasUpperCase(pw) && HasLowerCase(pw) && HasNumber(pw) && IsLongEnough(pw) then Strong
    else Weak
  }

  const TooShort := "must be at least 8 characters"
  const NoUpper := "needs uppercase letter"
  const NoLower := "needs lowercase letter"
  const NoNumber := "needs a number"

  /** The criteria not met, in the order the message names them. */
  function Unmet(isLongEnough: bool, hasUpperCase: bool, hasLowerCase: bool, hasNumber: bool): seq<string> {
    (if !isLongEnough then [TooShort] else [])
    + (if !hasUpperCase then [NoUpper] else [])
    + (if !hasLowerCase then [NoLower] else [])
    + (if !hasNumber then [NoNumber] else [])
  }

  /** The criteria the password misses. */
  function UnmetCriteria(pw: string): seq<string> {
    Unmet(IsLongEnough(pw), HasUpperCase(pw), HasLowerCase(pw), HasNumber(pw))
  }

  /** The feedback line shown under the password field. */
  function FeedbackMessage(pw: string): string {
    match Classify(pw)
    case NoStrength => ""
    case Good => "Password strength: Good"
    case Strong => "Password strength: Strong (meets basic requirements but can be improved)"
    case Weak => "Password strength: Weak (" + Join(UnmetCriteria(pw), ", ") + ")"
  }

  /** Each item followed by the separator: what the `+=` steps accumulate. */
  function Appended(items: seq<string>, sep: string): string {
    if |items| == 0 then "" else items[0] + sep + Appended(items[1..], sep)
  }

  lemma {:induction false} AppendedConcat(a: seq<string>, b: seq<string>, sep: string)
    ensures Appended(a + b, sep) == Appended(a, sep) + Appended(b, sep)
  {
    if |a| == 0 {
      assert a + b == b;
    } else {
      ConsOfConcat(a, b);
      AppendedConcat(a[1..], b, sep);
      ConcatAssoc(a[0] + sep, Appended(a[1..], sep), Appended(b, sep));
    }
  }

  /** For a non-empty list the accumulated text is the join plus one trailing
      separator, so cutting the separator off leaves exactly the join. */
  lemma {:induction false} AppendedIsJoinPlusSep(items: seq<string>, sep: string)
    requires |items| >= 1
    ensures Appended(items, sep) == Join(items, sep) + sep
  {
    if |items| > 1 {
      AppendedIsJoinPlusSep(items[1..], sep);
    } else {
      assert Appended(items[1..], sep) == "";
    }
  }

  /** One `if (...) message += item + ", "` step, taken or not. */
  lemma {:induction false} AppendStep(prefix: string, listed: seq<string>, taken: bool, item: string)
    ensures (if taken then prefix + Appended(listed, ", ") + item + ", " else prefix + Appended(listed, ", "))
      == prefix + Appended(listed + (if taken then [item] else []), ", ")
  {
    if taken {
      AppendedConcat(listed, [item], ", ");
      assert Appended([item], ", ") == item + ", " + "";
    } else {
      assert listed + [] == listed;
    }
  }

  /** `slice(0, -2)` removes the trailing ", ". */
  lemma {:induction false} CutTrailingSep(prefix: string, body: string)
    ensures (prefix + (body + ", "))[..|prefix + (body + ", ")| - 2] == prefix + body
  {
    assert prefix + (body + ", ") == (prefix + body) + ", ";
  }

  // ---------------------------------------------------------- the classifier

  /** The weak message: each unmet criterion appended with ", " by `+=`, then
      the last two characters cut off by `slice(0, -2)` and ")" added. */
  method WeakMessage(isLongEnough: bool, hasUpperCase: bool, hasLowerCase: bool, hasNumber: bool)
    returns (message: string)
    requires !(isLongEnough && hasUpperCase && hasLowerCase && hasNumber)
    ensures message == "Password strength: Weak ("
      + Join(Unmet(isLongEnough, hasUpperCase, hasLowerCase, hasNumber), ", ") + ")"
  {
    var msg := "Password strength: Weak (";
    ghost var prefix := msg;
    ghost var listed: seq<string> := [];
    assert msg == prefix + Appended(listed, ", ");
    AppendStep(prefix, listed, !isLongEnough, TooShort);
    if !isLongEnough {
      msg := msg + TooShort + ", ";
    }
    listed := listed + (if !isLongEnough then [TooShort] else []);
    AppendStep(prefix, listed, !hasUpperCase, NoUpper);
    if !hasUpperCase {
      msg := msg + NoUpper + ", ";
    }
    listed := listed + (if !hasUpperCase then [NoUpper] else []);
    AppendStep(prefix, listed, !hasLowerCase, NoLower);
    if !hasLowerCase {
      msg := msg + NoLower + ", ";
    }
    listed := listed + (if !hasLowerCase then [NoLower] else []);
    AppendStep(prefix, listed, !hasNumber, NoNumber);
    if !hasNumber {
      msg := msg + NoNumber + ", ";
    }
    listed := listed + (if !hasNumber then [NoNumber] else []);
    WeakTail(prefix, msg, listed, isLongEnough, hasUpperCase, hasLowerCase, hasNumber);
    message := msg[..|msg| - 2] + ")";
  }

  /** After the four steps: cutting the last ", " and closing the parenthesis
      gives the joined criteria. */
  lemma {:induction false} WeakTail(prefix: string, msg: string, listed: seq<string>,
      isLongEnough: bool, hasUpperCase: bool, hasLowerCase: bool, hasNumber: bool)
    requires !(isLongEnough && hasUpperCase && hasLowerCase && hasNumber)
    requires msg == prefix + Appended(listed, ", ")
    requires listed == [] + (if !isLongEnough then [TooShort] else []) + (if !hasUpperCase then [NoUpper] else [])
      + (if !hasLowerCase then [NoLower] else []) + (if !hasNumber then [NoNumber] else [])
    ensures |msg| >= 2
    ensures msg[..|msg| - 2] + ")" == prefix + Join(Unmet(isLongEnough, hasUpperCase, hasLowerCase, hasNumber), ", ") + ")"
  {
    UnmetAccumulated(isLongEnough, hasUpperCase, hasLowerCase, hasNumber);
    AppendedIsJoinPlusSep(listed, ", ");
    CutTrailingSep(prefix, Join(listed, ", "));
  }

  /** The criteria collected step by step are `Unmet`'s, and there is one. */
  lemma {:induction false} UnmetAccumulated(isLongEnough: bool, hasUpperCase: bool, hasLowerCase: bool, hasNumber: bool)
    requires !(isLongEnough && hasUpperCase && hasLowerCase && hasNumber)
    ensures var u := Unmet(isLongEnough, hasUpperCase, hasLowerCase, hasNumber);
      && [] + (if !isLongEnough then [TooShort] else []) + (if !hasUpperCase then [NoUpper] else [])
        + (if !hasLowerCase then [NoLower] else []) + (if !hasNumber then [NoNumber] else []) == u
      && |u| >= 1
  {
    var l1 := if !isLongEnough then [TooShort] else [];
    assert [] + l1 == l1;
  }

  /** The password branch of `handleChange`: the strength and the message. */
  method PasswordFeedback(pw: string) returns (strength: Strength, message: string)
    ensures strength == Classify(pw)
    ensures message == FeedbackMessage(pw)
  {
    var hasUpperCase := HasUpperCase(pw);
    var hasLowerCase := HasLowerCase(pw);
    var hasNumber := HasNumber(pw);
    var isLongEnough := Utf16Length(pw) >= 8;
    if pw == "" {
      strength, message := NoStrength, "";
    } else if MatchesPasswordRegex(pw) {
      strength, message := Good, "Password strength: Good";
    } else if hasUpperCase && hasLowerCase && hasNumber && isLongEnough {
      strength := Strong;
      message := "Password strength: Strong (meets basic requirements but can be improved)";
    } else {
      strength := Weak;
      message := WeakMessage(isLongEnough, hasUpperCase, hasLowerCase, hasNumber);
    }
  }

  // --------------------------------------------------------------- lemmas

  /** A password made only of letters and digits has no line terminator, so the
      regular expression's look-aheads only ask for the letter or digit to occur. */
  lemma {:induction false} LookAheadOnLettersAndDigits(pw: string, cls: char -> bool)
    requires forall i :: 0 <= i < |pw| ==> IsLetterOrDigit(pw[i])
    ensures LookAhead(pw, cls) <==> exists i :: 0 <= i < |pw| && cls(pw[i])
  {
    if exists i :: 0 <= i < |pw| && cls(pw[i]) {
      var i :| 0 <= i < |pw| && cls(pw[i]);
      assert forall j :: 0 <= j < i ==> !IsLineTerminator(pw[j]) by {
        forall j | 0 <= j < i ensures !IsLineTerminator(pw[j]) {
          assert IsLetterOrDigit(pw[j]);
        }
      }
    }
  }

  /** "good" exactly for passwords of at least 8 ASCII letters and digits with a
      lower-case letter, an upper-case letter and a digit. */
  lemma {:induction false} GoodIff(pw: string)
    ensures Classify(pw) == Good <==>
      && |pw| >= 8
      && (forall i :: 0 <= i < |pw| ==> IsLetterOrDigit(pw[i]))
      && HasLowerCase(pw) && HasUpperCase(pw) && HasNumber(pw)
  {
    if forall i :: 0 <= i < |pw| ==> IsLetterOrDigit(pw[i]) {
      LookAheadOnLettersAndDigits(pw, IsLower);
      LookAheadOnLettersAndDigits(pw, IsUpper);
      LookAheadOnLettersAndDigits(pw, IsDigit);
    }
  }

  /** "strong" exactly when all four criteria hold but some character is not an
      ASCII letter or digit. */
  lemma {:induction false} StrongIff(pw: string)
    ensures Classify(pw) == Strong <==>
      && HasUpperCase(pw) && HasLowerCase(pw) && HasNumber(pw) && IsLongEnough(pw)
      && exists i :: 0 <= i < |pw| && !IsLetterOrDigit(pw[i])
  {
    GoodIff(pw);
    if forall i :: 0 <= i < |pw| ==> IsLetterOrDigit(pw[i]) {
      Utf16LengthOfBmp(pw);
    }
  }

  /** "weak" exactly for a non-empty password missing one of the four criteria;
      its message then names at least one criterion. */
  lemma {:induction false} WeakIff(pw: string)
    ensures Classify(pw) == Weak <==>
      pw != "" && !(HasUpperCase(pw) && HasLowerCase(pw) && HasNumber(pw) && IsLongEnough(pw))
    ensures Classify(pw) == Weak ==> |UnmetCriteria(pw)| >= 1
  {
    GoodIff(pw);
  }

  /** The length criterion counts UTF-16 code units: "Aa1" followed by three
      characters above U+FFFF has six characters but length nine, so it is
      "strong" rather than "weak". */
  lemma {:induction false} LengthCountsCodeUnits()
    ensures Utf16Length("Aa1\U{1F600}\U{1F600}\U{1F600}") == 9
    ensures Classify("Aa1\U{1F600}\U{1F600}\U{1F600}") == Strong
  {
    var e := "\U{1F600}";
    var pw := "Aa1\U{1F600}\U{1F600}\U{1F600}";
    assert pw == "Aa1" + e + e + e;
    assert Utf16Length(pw) == 9 by {
      assert e[1..] == "";
      assert Utf16Length("Aa1") == 3 by { Utf16LengthOfBmp("Aa1"); }
      Utf16LengthConcat("Aa1", e);
      Utf16LengthConcat("Aa1" + e, e);
      Utf16LengthConcat("Aa1" + e + e, e);
    }
    assert HasUpperCase(pw) && HasLowerCase(pw) && HasNumber(pw) by {
      assert IsUpper(pw[0]) && IsLower(pw[1]) && IsDigit(pw[2]);
    }
    assert !IsLetterOrDigit(pw[3]);
    StrongIff(pw);
  }

  /** The weak message names a criterion exactly when it is unmet. */
  lemma {:induction false} WeakMessageNamesUnmet(pw: string)
    requires Classify(pw) == Weak
    ensures TooShort in UnmetCriteria(pw) <==> !IsLongEnough(pw)
    ensures NoUpper in UnmetCriteria(pw) <==> !HasUpperCase(pw)
    ensures NoLower in UnmetCriteria(pw) <==> !HasLowerCase(pw)
    ensures NoNumber in UnmetCriteria(pw) <==> !HasNumber(pw)
  {
  }

  /** The submit gate is the "good" classification: a "strong" password is refused. */
  lemma {:induction false} GateIsGood(pw: string)
    ensures MatchesPasswordRegex(pw) <==> Classify(pw) == Good
    ensures Classify(pw) == Strong ==> !MatchesPasswordRegex(pw)
  {
  }

  // ------------------------------------------------------- the page state

  const PasswordError := "Password must be at least 8 characters long and contain at least one uppercase letter, one lowercase letter, and one number."

  /** The component's state. `formData` is keyed by input name, as the
      `{ ...formData, [name]: value }` update writes it. */
  class RegisterPage {
    var formData: map<string, string>
    var error: Option<string>
    var success: Option<string>
    var isLoading: bool
    var passwordStrength: string
    var passwordMessage: string

    ghost predicate Valid()
      reads this
    {
      "username" in formData && "email" in formData && "password" in formData
    }

    constructor ()
      ensures Valid()
      ensures formData == map["username" := "", "email" := "", "password" := ""]
      ensures error == None && success == None && !isLoading
      ensures passwordStrength == "" && passwordMessage == ""
    {
      formData := map["username" := "", "email" := "", "password" := ""];
      error, success, isLoading := None, None, false;
      passwordStrength, passwordMessage := "", "";
    }

    /** `handleChange`: store the field; a password change also refreshes the feedback. */
    method HandleChange(name: string, value: string)
      requires Valid()
      modifies this
      ensures Valid()
      ensures formData == old(formData)[name := value]
      ensures name == "password" ==>
        passwordStrength == Label(Classify(value)) && passwordMessage == FeedbackMessage(value)
      ensures name != "password" ==>
        passwordStrength == old(passwordStrength) && passwordMessage == old(passwordMessage)
      ensures error == old(error) && success == old(success) && isLoading == old(isLoading)
    {
      formData := formData[name := value];
      if name == "password" {
        var strength, message := PasswordFeedback(value);
        passwordStrength, passwordMessage := Label(strength), message;
      }
    }

    /** The synchronous part of `handleSubmit`: clear the banners, then let the
        request go ahead only for a password the regular expression accepts. */
    method HandleSubmit() returns (proceeds: bool)
      requires Valid()
      modifies this
      ensures Valid() && formData == old(formData)
      ensures proceeds <==> Classify(formData["password"]) == Good
      ensures success == None
      ensures proceeds ==> error == None && isLoading
      ensures !proceeds ==> error == Some(PasswordError) && !isLoading
      ensures passwordStrength == old(passwordStrength) && passwordMessage == old(passwordMessage)
    {
      error, success, isLoading := None, None, true;
      if !MatchesPasswordRegex(formData["password"]) {
        error := Some(PasswordError);
        isLoading := false;
        proceeds := false;
        return;
      }
      proceeds := true;
    }

    /** The delayed registration call completing: its message becomes the success
        banner, or the error banner ("Registration failed" when it is empty). */
    method FinishRegistration(succeeded: bool, serverMessage: string)
      requires Valid()
      modifies this
      ensures Valid() && formData == old(formData)
      ensures succeeded ==> success == Some(serverMessage) && error == old(error)
      ensures !succeeded ==> success == old(success)
      ensures !succeeded ==> error == Some(if serverMessage == "" then "Registration failed" else serverMessage)
      ensures !isLoading
      ensures passwordStrength == old(passwordStrength) && passwordMessage == old(passwordMessage)
    {
      if succeeded {
        success := Some(serverMessage);
      } else {
        error := Some(if serverMessage == "" then "Registration failed" else serverMessage);
      }
      isLoading := false;
    }
  }
}
