/** The user forms of src/form/user.py: a form reads the request handler's
    arguments, its `validate` collects error messages in order and records
    the submitted values in `fields`, and `get` hands those values out only
    after validation.

    The two regular expressions are written as predicates on the structure
    they accept. Both are anchored by `^…$` and applied with `re.match`, and
    Python's `$` (without MULTILINE) matches at the end of the text or just
    before a final newline; so a value is accepted when the pattern's shape
    covers it whole, or covers it without its last character when that
    character is "\n". */
module FormUser {
  import opened Wrappers
  import opened Text

  const PassMinLen: nat := 3
  const PassMaxLen: nat := 32

  // ---------------------------------------------------------------------
  // Request arguments

  /** `handler.get_argument(name, None)`: the last value sent under `name`,
      or `None` when there is none. An empty string that was sent is a
      value, not `None`. */
  function GetArgument(arguments: map<string, seq<string>>, name: string): (r: Option<string>)
    ensures r.None? <==> name !in arguments || arguments[name] == []
    ensures r.Some? ==> r.value == arguments[name][|arguments[name]| - 1]
  {
    if name in arguments && arguments[name] != [] then
      Some(arguments[name][|arguments[name]| - 1])
    else None
  }

  /** When a name is sent several times, the last value wins. */
  lemma LastValueWins(arguments: map<string, seq<string>>, name: string, earlier: seq<string>, v: string)
    ensures GetArgument(arguments[name := earlier + [v]], name) == Some(v)
  {
  }

  // ---------------------------------------------------------------------
  // RE_USERNAME = ^[a-zA-Z][a-zA-Z0-9_]{2,19}$

  predicate WordChar(c: char) {
    IsAsciiLetter(c) || IsAsciiDigit(c) || c == '_'
  }

  /** Every character of `s` is in the class `cls`. */
  predicate AllOf(s: string, cls: char -> bool) {
    forall k :: 0 <= k < |s| ==> cls(s[k])
  }

  lemma NotOf(s: string, cls: char -> bool, x: char)
    requires AllOf(s, cls) && !cls(x)
    ensures x !in s
  {
  }

  /** What `[a-zA-Z][a-zA-Z0-9_]{2,19}` covers exactly. */
  predicate UsernameShape(t: string) {
    3 <= |t| <= 20 && IsAsciiLetter(t[0]) && AllOf(t[1..], WordChar)
  }

  /** `RE_USERNAME.match(s)` succeeds. */
  predicate ValidUsername(s: string) {
    UsernameShape(s) || (s != [] && s[|s| - 1] == '\n' && UsernameShape(s[..|s| - 1]))
  }

  /** An accepted shape is accepted with one final newline and not with
      two: `$` skips exactly one. */
  lemma UsernameFinalNewline(t: string)
    requires UsernameShape(t)
    ensures ValidUsername(t) && ValidUsername(t + "\n") && !ValidUsername(t + "\n\n")
  {
    assert (t + "\n")[..|t|] == t;
    var u := t + "\n\n";
    assert u[|u| - 1] == '\n' && u[1..][|u| - 2] == '\n';
    assert u[..|u| - 1] == t + "\n";
    assert (t + "\n")[1..][|t| - 1] == '\n';
  }

  /** An accepted user name has 3 to 20 characters, apart from a final
      newline, and no newline anywhere else. */
  lemma UsernameLength(s: string)
    requires ValidUsername(s)
    ensures 3 <= |s| <= 21 && ('\n' !in s ==> |s| <= 20)
    ensures forall k :: 0 <= k < |s| - 1 ==> s[k] != '\n'
  {
    if !UsernameShape(s) {
      var t := s[..|s| - 1];
      assert forall k :: 1 <= k < |t| ==> t[1..][k - 1] == s[k];
    } else {
      assert forall k :: 1 <= k < |s| ==> s[1..][k - 1] == s[k];
    }
  }

  // ---------------------------------------------------------------------
  // RE_EMAIL =
  //   ^[_A-Za-z0-9-\+]+(\.[_A-Za-z0-9-]+)*@[A-Za-z0-9-]+(\.[A-Za-z0-9]+)*(\.[A-Za-z]{2,})$
  //
  // No character class contains '@' or '.', so a covered text splits
  // uniquely: before the one '@' the local part, a '.'-separated list of
  // segments; after it the domain, a '.'-separated list of labels.

  /** `[_A-Za-z0-9-\+]`: the first segment of the local part. */
  predicate LocalHeadChar(c: char) {
    WordChar(c) || c == '-' || c == '+'
  }

  /** `[_A-Za-z0-9-]`: the later segments of the local part. */
  predicate LocalTailChar(c: char) {
    WordChar(c) || c == '-'
  }

  /** `[A-Za-z0-9-]`: the first label of the domain. */
  predicate LabelHeadChar(c: char) {
    IsAsciiLetter(c) || IsAsciiDigit(c) || c == '-'
  }

  /** `[A-Za-z0-9]`: the labels between the first and the last. */
  predicate LabelMidChar(c: char) {
    IsAsciiLetter(c) || IsAsciiDigit(c)
  }

  /** `[_A-Za-z0-9-\+]+(\.[_A-Za-z0-9-]+)*` */
  predicate LocalPart(x: string) {
    var segs := SplitAt(x, '.');
    segs[0] != [] && AllOf(segs[0], LocalHeadChar)
    && forall k :: 1 <= k < |segs| ==> segs[k] != [] && AllOf(segs[k], LocalTailChar)
  }

  /** `[A-Za-z0-9-]+(\.[A-Za-z0-9]+)*(\.[A-Za-z]{2,})` */
  predicate DomainPart(y: string) {
    var labels := SplitAt(y, '.');
    |labels| >= 2
    && labels[0] != [] && AllOf(labels[0], LabelHeadChar)
    && (forall k :: 1 <= k < |labels| - 1 ==> labels[k] != [] && AllOf(labels[k], LabelMidChar))
    && |labels[|labels| - 1]| >= 2 && AllOf(labels[|labels| - 1], IsAsciiLetter)
  }

  /** What the body of RE_EMAIL covers exactly. */
  predicate EmailShape(t: string) {
    '@' in t && LocalPart(t[..FirstOf(t, '@')]) && DomainPart(t[FirstOf(t, '@') + 1..])
  }

  /** `RE_EMAIL.match(s)` succeeds. */
  predicate ValidEmail(s: string) {
    EmailShape(s) || (s != [] && s[|s| - 1] == '\n' && EmailShape(s[..|s| - 1]))
  }

  /** An accepted address is its local part, the '@' and its domain. */
  lemma EmailSplit(t: string) returns (x: string, y: string)
    requires EmailShape(t)
    ensures t == x + ['@'] + y && LocalPart(x) && DomainPart(y)
  {
    var i := FirstOf(t, '@');
    x, y := t[..i], t[i + 1..];
    assert t == t[..i] + [t[i]] + t[i + 1..];
  }

  /** The labels of a domain hold no '@' and no '+'. */
  lemma DomainHasNoAt(y: string)
    requires DomainPart(y)
    ensures '@' !in y && '+' !in y
  {
    var labels := SplitAt(y, '.');
    LabelsOmit(labels, '@');
    LabelsOmit(labels, '+');
    SplitJoin(y, '.');
    JoinWithOmits(labels, '.', '@');
    JoinWithOmits(labels, '.', '+');
  }

  lemma LabelsOmit(labels: seq<string>, x: char)
    requires |labels| >= 2 && AllOf(labels[0], LabelHeadChar)
    requires forall k :: 1 <= k < |labels| - 1 ==> AllOf(labels[k], LabelMidChar)
    requires AllOf(labels[|labels| - 1], IsAsciiLetter)
    requires !LabelHeadChar(x)
    ensures forall k :: 0 <= k < |labels| ==> x !in labels[k]
  {
    forall k | 0 <= k < |labels|
      ensures x !in labels[k]
    {
      if k == 0 {
        NotOf(labels[k], LabelHeadChar, x);
      } else if k < |labels| - 1 {
        NotOf(labels[k], LabelMidChar, x);
      } else {
        NotOf(labels[k], IsAsciiLetter, x);
      }
    }
  }

  /** An accepted address has exactly one '@'. */
  lemma EmailOneAt(t: string)
    requires EmailShape(t)
    ensures Count(t, '@') == 1
  {
    var x, y := EmailSplit(t);
    DomainHasNoAt(y);
    LocalHasNoAt(x);
    CountOne(x, y, '@');
  }

  /** The segments of a local part hold no '@'. */
  lemma LocalHasNoAt(x: string)
    requires LocalPart(x)
    ensures '@' !in x
  {
    var segs := SplitAt(x, '.');
    forall j | 0 <= j < |segs|
      ensures '@' !in segs[j]
    {
      if j == 0 {
        NotOf(segs[j], LocalHeadChar, '@');
      } else {
        NotOf(segs[j], LocalTailChar, '@');
      }
    }
    SplitJoin(x, '.');
    JoinWithOmits(segs, '.', '@');
  }

  /** A text with `c` once, between two texts without it. */
  lemma CountOne(x: string, y: string, c: char)
    requires c !in x && c !in y
    ensures Count(x + [c] + y, c) == 1
  {
    var one: string := [c];
    assert x + [c] + y == x + (one + y);
    CountAppend(x, one + y, c);
    CountAppend(one, y, c);
    CountNone(x, c);
    CountNone(y, c);
    assert Count(one, c) == 1 by {
      assert one[1..] == [];
    }
  }

  /** `t` ends with a '.' and `n` letters, at least two. */
  predicate EndsWithLabel(t: string, n: nat) {
    2 <= n < |t| && t[|t| - n - 1] == '.' && AllOf(t[|t| - n..], IsAsciiLetter)
  }

  /** The domain's last label, after its last '.'. */
  lemma DomainLast(y: string) returns (front: string, last: string)
    requires DomainPart(y)
    ensures y == front + ['.'] + last && |last| >= 2 && AllOf(last, IsAsciiLetter)
  {
    var labels := SplitAt(y, '.');
    SplitJoin(y, '.');
    JoinWithLast(labels, '.');
    front, last := JoinWith(labels[..|labels| - 1], '.'), labels[|labels| - 1];
  }

  lemma LabelAtEnd(a: string, last: string)
    requires a != [] && |last| >= 2 && AllOf(last, IsAsciiLetter)
    ensures EndsWithLabel(a + ['.'] + last, |last|)
  {
    var t := a + ['.'] + last;
    assert t[|t| - |last|..] == last;
  }

  /** An accepted address ends with a '.' and a last label of at least two
      letters. */
  lemma EmailEndsWithLetters(t: string)
    requires EmailShape(t)
    ensures exists n :: EndsWithLabel(t, n)
  {
    var x, y := EmailSplit(t);
    var front, last := DomainLast(y);
    assert t == (x + ['@'] + front) + ['.'] + last;
    LabelAtEnd(x + ['@'] + front, last);
  }

  /** A character at `k` of `h + rest` that `rest` lacks lies in `h`. */
  lemma InFront(h: string, rest: string, k: nat, x: char)
    requires k < |h + rest| && (h + rest)[k] == x && x !in rest
    ensures k < |h| && (h + rest)[..k] == h[..k]
  {
  }

  /** The local part is its first segment followed by text without '+'. */
  lemma LocalHead(x: string) returns (head: string, rest: string)
    requires LocalPart(x)
    ensures x == head + rest && AllOf(head, LocalHeadChar) && '.' !in head && '+' !in rest
  {
    var segs := SplitAt(x, '.');
    SplitJoin(x, '.');
    head := segs[0];
    if |segs| == 1 {
      rest := [];
    } else {
      var tail := segs[1..];
      forall j | 0 <= j < |tail|
        ensures '+' !in tail[j]
      {
        NotOf(tail[j], LocalTailChar, '+');
      }
      JoinWithOmits(tail, '.', '+');
      rest := ['.'] + JoinWith(tail, '.');
    }
  }

  /** A '+' can only appear in the first segment of the local part: no '.'
      and no '@' comes before it. */
  lemma EmailPlusInFirstSegment(t: string, k: nat)
    requires EmailShape(t) && k < |t| && t[k] == '+'
    ensures '.' !in t[..k] && '@' !in t[..k]
  {
    var x, y := EmailSplit(t);
    DomainHasNoAt(y);
    var head, rest := LocalHead(x);
    NotOf(head, LocalHeadChar, '@');
    PrefixOmits(t, x, y, head, rest, k);
  }

  /** Before a '+' that only the head of the local part can hold, the
      address has what that head has. */
  lemma PrefixOmits(t: string, x: string, y: string, h: string, rest: string, k: nat)
    requires t == x + ['@'] + y && x == h + rest && '+' !in rest && '+' !in y
    requires k < |t| && t[k] == '+' && '.' !in h && '@' !in h
    ensures '.' !in t[..k] && '@' !in t[..k]
  {
    var after := rest + ['@'] + y;
    assert t == h + after;
    InFront(h, after, k, '+');
    assert forall j :: 0 <= j < k ==> h[..k][j] == h[j];
  }

  /** An accepted address is accepted with one final newline too. */
  lemma EmailFinalNewline(t: string)
    requires EmailShape(t)
    ensures ValidEmail(t + "\n")
  {
    assert (t + "\n")[..|t|] == t;
  }

  /** The first `c` of `a + [c] + b`, when `a` has none, is right after `a`. */
  lemma FirstAfter(a: string, b: string, c: char)
    requires c !in a
    ensures c in a + [c] + b && FirstOf(a + [c] + b, c) == |a|
      && SplitAt(a + [c] + b, c) == [a] + SplitAt(b, c)
  {
    var t := a + [c] + b;
    assert t[|a|] == c;
    assert t[..|a|] == a && t[|a| + 1..] == b;
  }

  /** Completeness for the simplest addresses: a first segment, one domain
      label and a final label of letters are accepted. */
  lemma EmailAccepts(local: string, first: string, tld: string)
    requires local != [] && AllOf(local, LocalHeadChar)
    requires first != [] && AllOf(first, LabelHeadChar)
    requires |tld| >= 2 && AllOf(tld, IsAsciiLetter)
    ensures EmailShape(local + ['@'] + (first + ['.'] + tld))
  {
    NotOf(local, LocalHeadChar, '@');
    var y := first + ['.'] + tld;
    var t := local + ['@'] + y;
    FirstAfter(local, y, '@');
    assert t[..|local|] == local && t[|local| + 1..] == y;
    OneSegment(local);
    TwoLabels(first, tld);
  }

  lemma OneSegment(local: string)
    requires local != [] && AllOf(local, LocalHeadChar)
    ensures LocalPart(local)
  {
    NotOf(local, LocalHeadChar, '.');
    assert SplitAt(local, '.') == [local];
  }

  lemma TwoLabels(first: string, tld: string)
    requires first != [] && AllOf(first, LabelHeadChar)
    requires |tld| >= 2 && AllOf(tld, IsAsciiLetter)
    ensures DomainPart(first + ['.'] + tld)
  {
    NotOf(first, LabelHeadChar, '.');
    NotOf(tld, IsAsciiLetter, '.');
    FirstAfter(first, tld, '.');
    assert SplitAt(tld, '.') == [tld];
    assert SplitAt(first + ['.'] + tld, '.') == [first, tld];
  }

  /** In the domain, a hyphen can only stand in the first label: no '.'
      lies between the '@' and it. */
  lemma EmailHyphenInFirstLabel(t: string, k: nat)
    requires EmailShape(t) && FirstOf(t, '@') < k < |t| && t[k] == '-'
    ensures '.' !in t[FirstOf(t, '@') + 1..k]
  {
    var i := FirstOf(t, '@');
    var head, rest := DomainHead(t[i + 1..]);
    HyphenInHead(t, i, head, rest, k);
  }

  lemma HyphenInHead(t: string, i: nat, head: string, rest: string, k: nat)
    requires i < k < |t| && t[k] == '-' && t[i + 1..] == head + rest
    requires '.' !in head && '-' !in rest
    ensures '.' !in t[i + 1..k]
  {
    var y := t[i + 1..];
    assert y[k - i - 1] == '-';
    InFront(head, rest, k - i - 1, '-');
    assert t[i + 1..k] == y[..k - i - 1];
    assert forall j :: 0 <= j < k - i - 1 ==> head[..k - i - 1][j] == head[j];
  }

  /** The domain is its first label followed by text without '-'. */
  lemma DomainHead(y: string) returns (head: string, rest: string)
    requires DomainPart(y)
    ensures y == head + rest && '.' !in head && '-' !in rest
  {
    var labels := SplitAt(y, '.');
    SplitJoin(y, '.');
    head := labels[0];
    var tail := labels[1..];
    forall j | 0 <= j < |tail|
      ensures '-' !in tail[j]
    {
      if j < |tail| - 1 {
        NotOf(tail[j], LabelMidChar, '-');
      } else {
        NotOf(tail[j], IsAsciiLetter, '-');
      }
    }
    JoinWithOmits(tail, '.', '-');
    rest := ['.'] + JoinWith(tail, '.');
  }

  /** The source's comment above RE_EMAIL calls `hello@bla-bla.com`
      unsupported; the pattern accepts it, since the first domain label
      may hold a hyphen. Later labels may not (EmailHyphenInFirstLabel). */
  lemma HyphenatedDomainAccepted(local: string, first: string, tld: string)
    requires local == "hello" && first == "bla-bla" && tld == "com"
    ensures ValidEmail(local + ['@'] + (first + ['.'] + tld))
  {
    assert AllOf(first, LabelHeadChar) by {
      assert forall j :: 0 <= j < |first| ==> first[j] == '-' || IsAsciiLetter(first[j]);
    }
    EmailAccepts(local, first, tld);
  }

  // ---------------------------------------------------------------------
  // Errors

  /** The messages `validate` appends, one constructor per message. */
  datatype FormError =
    | UsernameMissing | UsernameIllegal
    | EmailMissing | EmailIllegal
    | PasswordMissing | PasswordTooShort | PasswordTooLong
    | ConfirmMissing | PasswordMismatch
    | EmailInUse
    | LoginEmailMissing | LoginPasswordMissing

  /** The text of each message. */
  function Message(e: FormError): string {
    match e
    case UsernameMissing => "必须填写用户名"
    case UsernameIllegal => "非法的用户名"
    case EmailMissing => "必须填写 email 地址"
    case EmailIllegal => "非法的 email 地址"
    case PasswordMissing => "必须填写密码"
    case PasswordTooShort => "密码长度过短"
    case PasswordTooLong => "密码长度过长"
    case ConfirmMissing => "必须填写确认密码"
    case PasswordMismatch => "两次输入密码不一致"
    case EmailInUse => "该邮箱已经被使用！"
    case LoginEmailMissing => "必须填写您的 email 地址"
    case LoginPasswordMissing => "请填写密码"
  }

  /** `FormNotVaidateError`, raised by `get` before `validate`. */
  datatype FormFailure = FormNotValidated

  // ---------------------------------------------------------------------
  // RegisterForm.validate, as a function of the arguments

  /** The user name check: a message when it is missing or RE_USERNAME
      rejects it. */
  function UsernameErrors(username: Option<string>): seq<FormError> {
    if username.None? then [UsernameMissing]
    else if !ValidUsername(username.value) then [UsernameIllegal]
    else []
  }

  /** The address check: a message when it is missing or RE_EMAIL rejects
      it. */
  function EmailErrors(email: Option<string>): seq<FormError> {
    if email.None? then [EmailMissing]
    else if !ValidEmail(email.value) then [EmailIllegal]
    else []
  }

  /** The password check: missing, shorter than PASS_MIN_LEN or longer
      than PASS_MAX_LEN, tested in that order. */
  function PasswordErrors(password: Option<string>): seq<FormError> {
    if password.None? then [PasswordMissing]
    else if |password.value| < PassMinLen then [PasswordTooShort]
    else if |password.value| > PassMaxLen then [PasswordTooLong]
    else []
  }

  /** The confirmation check: missing, or different from a password that
      was sent. */
  function ConfirmErrors(password: Option<string>, confirm: Option<string>): seq<FormError> {
    if confirm.None? then [ConfirmMissing]
    else if password.Some? && password != confirm then [PasswordMismatch]
    else []
  }

  /** The messages of the checks that need no database, in order. */
  function RegisterErrors(arguments: map<string, seq<string>>): seq<FormError> {
    var password := GetArgument(arguments, "password");
    UsernameErrors(GetArgument(arguments, "username"))
    + EmailErrors(GetArgument(arguments, "email"))
    + PasswordErrors(password)
    + ConfirmErrors(password, GetArgument(arguments, "password_confirm"))
  }

  /** The error list after `validate`, from the list before it: the
      messages above are appended, and when the list is then still empty
      the uniqueness lookup may add one more. `emailInUse` stands for the
      answer of the user store for the lower-cased address. */
  function RegisterValidation(before: seq<FormError>, arguments: map<string, seq<string>>, emailInUse: bool): seq<FormError> {
    var errors := before + RegisterErrors(arguments);
    if errors == [] && emailInUse then [EmailInUse] else errors
  }

  /** What a registration needs: every field sent, a user name and
      address the patterns accept, a password of 3 to 32 characters and
      the same password twice. */
  predicate RegisterInputOk(arguments: map<string, seq<string>>) {
    var username := GetArgument(arguments, "username");
    var email := GetArgument(arguments, "email");
    var password := GetArgument(arguments, "password");
    username.Some? && ValidUsername(username.value)
    && email.Some? && ValidEmail(email.value)
    && password.Some? && PassMinLen <= |password.value| <= PassMaxLen
    && GetArgument(arguments, "password_confirm") == password
  }

  /** The checks before the database find nothing exactly when the input
      is acceptable. */
  lemma RegisterErrorsEmpty(arguments: map<string, seq<string>>)
    ensures RegisterErrors(arguments) == [] <==> RegisterInputOk(arguments)
  {
  }

  /** Each field adds at most one message, so at most four come before
      the database; the password adds exactly one whenever it is missing
      or its length is out of range. */
  lemma RegisterErrorsPerField(arguments: map<string, seq<string>>)
    ensures |RegisterErrors(arguments)| <= 4
    ensures var p := GetArgument(arguments, "password");
      |PasswordErrors(p)| == (if p.None? || |p.value| < PassMinLen || |p.value| > PassMaxLen then 1 else 0)
  {
  }

  /** The mismatch message appears exactly when both passwords were sent
      and differ, whatever else is wrong with the password. */
  lemma MismatchNeedsBothPasswords(arguments: map<string, seq<string>>)
    ensures PasswordMismatch in RegisterErrors(arguments) <==>
      (var p := GetArgument(arguments, "password");
       var c := GetArgument(arguments, "password_confirm");
       p.Some? && c.Some? && p != c)
  {
  }

  /** A registration succeeds exactly when nothing was wrong before, the
      input is acceptable and the address is not yet in use; the lookup
      adds its message only when everything else passed. */
  lemma RegisterValidationOutcome(before: seq<FormError>, arguments: map<string, seq<string>>, emailInUse: bool)
    ensures RegisterValidation(before, arguments, emailInUse) == [] <==>
      (before == [] && RegisterInputOk(arguments) && !emailInUse)
    ensures EmailInUse !in before ==>
      (EmailInUse in RegisterValidation(before, arguments, emailInUse) <==>
       (before == [] && RegisterInputOk(arguments) && emailInUse))
  {
    RegisterErrorsEmpty(arguments);
    assert EmailInUse !in RegisterErrors(arguments);
  }

  /** Validating a form whose list already holds a message fails again:
      the messages pile up and none is ever removed. */
  lemma RegisterValidationAccumulates(before: seq<FormError>, arguments: map<string, seq<string>>, emailInUse: bool)
    requires before != []
    ensures RegisterValidation(before, arguments, emailInUse) == before + RegisterErrors(arguments)
    ensures |RegisterValidation(before, arguments, emailInUse)| > |before|
      <==> !RegisterInputOk(arguments)
  {
    RegisterErrorsEmpty(arguments);
  }

  // ---------------------------------------------------------------------
  // LoginForm.validate, as a function of the arguments

  /** LoginForm's checks: presence of the address and of the password. */
  function LoginErrors(arguments: map<string, seq<string>>): seq<FormError> {
    (if GetArgument(arguments, "email").None? then [LoginEmailMissing] else [])
    + (if GetArgument(arguments, "password").None? then [LoginPasswordMissing] else [])
  }

  /** A login form checks presence only: it passes exactly when both
      fields were sent, whatever their contents. */
  lemma LoginChecksPresence(arguments: map<string, seq<string>>)
    ensures LoginErrors(arguments) == [] <==>
      ("email" in arguments && arguments["email"] != []
       && "password" in arguments && arguments["password"] != [])
  {
  }

  // ---------------------------------------------------------------------
  // The form objects

  /** `BaseForm`: the handler's arguments, whether `validate` ran, the
      recorded values and the messages collected so far. */
  class Form {
    const arguments: map<string, seq<string>>
    var validated: bool
    var fields: map<string, Option<string>>
    var errors: seq<FormError>

    constructor (arguments: map<string, seq<string>>)
      ensures this.arguments == arguments
      ensures !validated && fields == map[] && errors == []
    {
      this.arguments := arguments;
      validated := false;
      fields := map[];
      errors := [];
    }

    /** `get(name)`: an error before validation, otherwise the recorded
        value, `None` for a name never recorded. */
    method Get(name: string) returns (r: Result<Option<string>, FormFailure>)
      ensures !validated <==> r == Err(FormNotValidated)
      ensures validated ==> r == Ok(if name in fields then fields[name] else None)
    {
      if !validated {
        return Err(FormNotValidated);
      }
      if name in fields {
        r := Ok(fields[name]);
      } else {
        r := Ok(None);
      }
    }
  }

  /** Appending four lists one after the other appends their
      concatenation. */
  lemma Append4<T>(a: seq<T>, b: seq<T>, c: seq<T>, d: seq<T>, e: seq<T>)
    ensures a + b + c + d + e == a + (b + c + d + e)
  {
  }

  /** `RegisterForm.validate`. The checks run in the source's order and
      append to the form's list; the database lookup runs only when the
      list is empty after them, and its answer is `emailInUse`. */
  method RegisterValidate(f: Form, emailInUse: bool) returns (ok: bool)
    modifies f
    ensures f.validated
    ensures f.fields == old(f.fields)["username" := GetArgument(f.arguments, "username")]
      ["email" := GetArgument(f.arguments, "email")]["password" := GetArgument(f.arguments, "password")]
    ensures f.errors == RegisterValidation(old(f.errors), f.arguments, emailInUse)
    ensures ok <==> f.errors == []
  {
    var username := GetArgument(f.arguments, "username");
    f.errors := f.errors + UsernameErrors(username);
    var email := GetArgument(f.arguments, "email");
    f.errors := f.errors + EmailErrors(email);
    var password := GetArgument(f.arguments, "password");
    f.errors := f.errors + PasswordErrors(password);
    var confirm := GetArgument(f.arguments, "password_confirm");
    f.errors := f.errors + ConfirmErrors(password, confirm);
    Append4(old(f.errors), UsernameErrors(username), EmailErrors(email), PasswordErrors(password), ConfirmErrors(password, confirm));

    f.validated := true;
    f.fields := f.fields["username" := username];
    f.fields := f.fields["email" := email];
    f.fields := f.fields["password" := password];

    if |f.errors| > 0 {
      return false;
    }
    if emailInUse {
      f.errors := f.errors + [EmailInUse];
    }
    ok := |f.errors| == 0;
  }

  /** `LoginForm.validate`: only the presence of both fields is checked. */
  method LoginValidate(f: Form) returns (ok: bool)
    modifies f
    ensures f.validated
    ensures f.fields == old(f.fields)["email" := GetArgument(f.arguments, "email")]
      ["password" := GetArgument(f.arguments, "password")]
    ensures f.errors == old(f.errors) + LoginErrors(f.arguments)
    ensures ok <==> f.errors == []
  {
    var email := GetArgument(f.arguments, "email");
    if email == None {
      f.errors := f.errors + [LoginEmailMissing];
    }
    var password := GetArgument(f.arguments, "password");
    if password == None {
      f.errors := f.errors + [LoginPasswordMissing];
    }
    f.validated := true;
    f.fields := f.fields["email" := email];
    f.fields := f.fields["password" := password];
    ok := |f.errors| == 0;
  }
}
