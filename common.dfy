/** Values and string helpers shared by every route of the anonymous-feedback
    application: optional values, the JSON values a request body can hold,
    JavaScript's String.prototype.trim (used by every mongoose `trim: true`
    field), the decimal rendering of the six-digit verification codes, and the
    cast of a string to a Mongo ObjectId. */
module Common {

  datatype Option<T> = None | Some(value: T)

  datatype Result<T, E> = Ok(value: T) | Err(error: E)

  /** The JSON reply of a route with the HTTP status it is sent with. */
  datatype Response = Response(status: int, success: bool, message: Message, errors: seq<string>)

  /** The `message` a route handler writes into its reply, one constructor
      per text; `Relayed` passes on a text that comes from elsewhere (the
      mailer's failure message). The two catch-block prefixes are followed
      by the error's own text in the handlers. */
  datatype Message =
    | NoMessage
    | NotAuthenticated
    | ValidationError
    | FeedbackSubmitted
    | FeedbackCreateFailed
    | AlreadySubmitted
    | PostNotFound
    | PostCreated
    | PostCreateFailed
    | PostsRetrieveFailed
    | SignUpValidationFailed
    | UsernameTaken
    | UserExists
    | UserRegistered
    | RegisterFailed
    | UsernameExists
    | UsernameUnique
    | ZodValidationError
    | UserNotFound
    | AlreadyVerified
    | AccountVerified
    | CodeExpired
    | InvalidCode
    | VerifyFailed
    | TopPostsFailed
    | RecentPostsFailed
    | Relayed(text: string)

  function MessageText(m: Message): string
  {
    match m
    case NoMessage => ""
    case NotAuthenticated => "Not authenticated."
    case ValidationError => "Validation error."
    case FeedbackSubmitted => "New feedback submitted."
    case FeedbackCreateFailed => "Error while creating feedback."
    case AlreadySubmitted => "You have already submitted feedback for this post."
    case PostNotFound => "Post not found."
    case PostCreated => "New post created."
    case PostCreateFailed => "Error while creating post."
    case PostsRetrieveFailed => "Error while retrieving posts."
    case SignUpValidationFailed => "Validation failed"
    case UsernameTaken => "Username is already taken."
    case UserExists => "User already exists. Please login."
    case UserRegistered => "User registered successfully. Please verify your email."
    case RegisterFailed => "Error registering user. "
    case UsernameExists => "Username already exists."
    case UsernameUnique => "Username is unique."
    case ZodValidationError => "Zod validation error"
    case UserNotFound => "User not found."
    case AlreadyVerified => "User already verified."
    case AccountVerified => "Account verified."
    case CodeExpired => "Code expired sent new verification code please enter new verification code."
    case InvalidCode => "Code is not valid or expired."
    case VerifyFailed => "Error verifying user. "
    case TopPostsFailed => "Error fetching top posts."
    case RecentPostsFailed => "Error fetching recent posts."
    case Relayed(text) => text
  }

  /** A parsed JSON request body. Numbers are integers here; fractional
      numbers do not occur in any field this model reads. */
  datatype Json =
    | JNull
    | JBool(b: bool)
    | JNumber(n: int)
    | JString(s: string)
    | JArray(items: seq<Json>)
    | JObject(fields: map<string, Json>)

  /** The type name zod reports in "Expected string, received <name>". */
  function TypeName(j: Json): string
  {
    match j
    case JNull => "null"
    case JBool(_) => "boolean"
    case JNumber(_) => "number"
    case JString(_) => "string"
    case JArray(_) => "array"
    case JObject(_) => "object"
  }

  // ---------------------------------------------------------------------
  // JavaScript String.prototype.trim

  /** The characters trim removes: WhiteSpace and LineTerminator of
      ECMAScript (section 12.2 and 12.3 of ECMA-262). */
  predicate IsJsWhitespace(c: char)
  {
    || c == ' ' || c == '\t' || c == '\n' || c == '\r'
    || c == '\U{B}' || c == '\U{C}' || c == '\U{A0}' || c == '\U{1680}'
    || ('\U{2000}' <= c <= '\U{200A}')
    || c == '\U{2028}' || c == '\U{2029}' || c == '\U{202F}' || c == '\U{205F}'
    || c == '\U{3000}' || c == '\U{FEFF}'
  }

  predicate AllWhitespace(s: string)
  {
    forall i :: 0 <= i < |s| ==> IsJsWhitespace(s[i])
  }

  /** Removes leading whitespace: the result is a suffix of s that starts
      with a non-whitespace character, and everything cut off is whitespace. */
  function TrimStart(s: string): (r: string)
    ensures |r| <= |s| && r == s[|s| - |r|..]
    ensures r == [] || !IsJsWhitespace(r[0])
    ensures AllWhitespace(s[..|s| - |r|])
  {
    if s != [] && IsJsWhitespace(s[0]) then
      var r := TrimStart(s[1..]);
      FrontCutExtends(s, |r|);
      r
    else s
  }

  /** Cutting one more whitespace character off the front keeps the cut
      all whitespace and keeps the rest. */
  lemma FrontCutExtends(s: string, k: nat)
    requires s != [] && IsJsWhitespace(s[0]) && k <= |s| - 1
    requires AllWhitespace(s[1..][..|s| - 1 - k])
    ensures AllWhitespace(s[..|s| - k]) && s[1..][|s| - 1 - k..] == s[|s| - k..]
  {
    var cut := s[..|s| - k];
    forall i | 0 <= i < |cut| ensures IsJsWhitespace(cut[i]) {
      if i > 0 {
        assert cut[i] == s[1..][..|s| - 1 - k][i - 1];
      }
    }
  }

  /** Removes trailing whitespace: the result is a prefix of s that ends
      with a non-whitespace character, and everything cut off is whitespace. */
  function TrimEnd(s: string): (r: string)
    ensures |r| <= |s| && r == s[..|r|]
    ensures r == [] || !IsJsWhitespace(r[|r| - 1])
    ensures AllWhitespace(s[|r|..])
  {
    if s != [] && IsJsWhitespace(s[|s| - 1]) then
      var r := TrimEnd(s[..|s| - 1]);
      BackCutExtends(s, |r|);
      r
    else s
  }

  /** Cutting one more whitespace character off the back keeps the cut
      all whitespace and keeps the rest. */
  lemma BackCutExtends(s: string, k: nat)
    requires s != [] && IsJsWhitespace(s[|s| - 1]) && k <= |s| - 1
    requires AllWhitespace(s[..|s| - 1][k..])
    ensures AllWhitespace(s[k..]) && s[..|s| - 1][..k] == s[..k]
  {
    assert s[k..] == s[..|s| - 1][k..] + [s[|s| - 1]];
  }

  function Trim(s: string): string
  {
    TrimEnd(TrimStart(s))
  }

  /** A trimmed string has no whitespace at either end. */
  lemma TrimmedHasNoOuterWhitespace(s: string)
    ensures var t := Trim(s); t == [] || (!IsJsWhitespace(t[0]) && !IsJsWhitespace(t[|t| - 1]))
  {
    var u := TrimStart(s);
    var t := TrimEnd(u);
    if t != [] {
      assert t[0] == u[0];
    }
  }

  /** Trimming yields the empty string exactly when the input is all whitespace
      (this is what makes mongoose's `required` reject a blank trimmed value). */
  lemma TrimEmptyIff(s: string)
    ensures Trim(s) == [] <==> AllWhitespace(s)
  {
    var u := TrimStart(s);
    if Trim(s) == [] {
      assert AllWhitespace(u[0..]);
      assert u == [];
      assert s[..|s| - |u|] == s;
    } else if AllWhitespace(s) {
      BlankTrimsToEmpty(s);
    }
  }

  lemma {:induction false} BlankTrimsToEmpty(s: string)
    requires AllWhitespace(s)
    ensures TrimStart(s) == []
  {
    if s != [] {
      assert AllWhitespace(s[1..]) by {
        forall i | 0 <= i < |s| - 1 ensures IsJsWhitespace(s[1..][i]) {
          assert s[1..][i] == s[i + 1];
        }
      }
      BlankTrimsToEmpty(s[1..]);
    }
  }

  /** Trimming twice is trimming once. */
  lemma TrimIdempotent(s: string)
    ensures Trim(Trim(s)) == Trim(s)
  {
    var t := Trim(s);
    TrimmedHasNoOuterWhitespace(s);
    assert TrimStart(t) == t;
    assert TrimEnd(t) == t;
  }

  // ---------------------------------------------------------------------
  // Decimal rendering of a non-negative integer (Number.prototype.toString)

  function DigitChar(d: nat): char
    requires d < 10
  {
    "0123456789"[d]
  }

  predicate IsDigit(c: char)
  {
    '0' <= c <= '9'
  }

  function DigitValue(c: char): nat
    requires IsDigit(c)
  {
    c as int - '0' as int
  }

  function Pow10(k: nat): (p: nat)
    ensures p >= 1
  {
    if k == 0 then 1 else 10 * Pow10(k - 1)
  }

  function DecimalString(n: nat): (s: string)
    ensures |s| >= 1
    ensures forall i :: 0 <= i < |s| ==> IsDigit(s[i])
  {
    if n < 10 then [DigitChar(n)] else DecimalString(n / 10) + [DigitChar(n % 10)]
  }

  /** The value of a string of decimal digits, the inverse of DecimalString. */
  function DecimalValue(s: string): nat
    requires forall i :: 0 <= i < |s| ==> IsDigit(s[i])
  {
    if s == [] then 0 else 10 * DecimalValue(s[..|s| - 1]) + DigitValue(s[|s| - 1])
  }

  lemma {:induction false} DecimalRoundTrip(n: nat)
    ensures DecimalValue(DecimalString(n)) == n
  {
    var s := DecimalString(n);
    if n < 10 {
      assert s[..0] == [];
    } else {
      DecimalRoundTrip(n / 10);
      assert s[..|s| - 1] == DecimalString(n / 10);
    }
  }

  /** A number with exactly k digits renders as k characters. */
  lemma {:induction false} DecimalLength(n: nat, k: nat)
    requires 1 <= k && Pow10(k - 1) <= n < Pow10(k)
    ensures |DecimalString(n)| == k
  {
    if n >= 10 {
      assert k >= 2;
      DecimalLength(n / 10, k - 1);
    }
  }

  /** Every code in 100000..999999 renders as six decimal digits. */
  lemma SixDigitCode(n: nat)
    requires 100000 <= n <= 999999
    ensures |DecimalString(n)| == 6
  {
    assert Pow10(5) == 100000 && Pow10(6) == 1000000;
    DecimalLength(n, 6);
  }

  // ---------------------------------------------------------------------
  // parseInt(s, 10) (section 19.2.5 of ECMA-262)

  /** The longest prefix of s made of decimal digits. */
  function DigitPrefix(s: string): (r: string)
    ensures |r| <= |s| && r == s[..|r|]
    ensures forall i :: 0 <= i < |r| ==> IsDigit(r[i])
    ensures |r| == |s| || !IsDigit(s[|r|])
  {
    if s == [] || !IsDigit(s[0]) then [] else [s[0]] + DigitPrefix(s[1..])
  }

  /** `parseInt(s, 10)`: leading whitespace is skipped, one sign is read,
      and the longest run of digits after it is the value; anything after
      the digits is ignored. None stands for NaN (no digit after the sign). */
  function ParseInt(s: string): Option<int>
  {
    ParseSigned(TrimStart(s))
  }

  /** parseInt after the leading whitespace: an optional sign, then digits. */
  function ParseSigned(t: string): Option<int>
  {
    if t != [] && t[0] == '-' then Negated(ParseDigits(t[1..]))
    else if t != [] && t[0] == '+' then ParseDigits(t[1..])
    else ParseDigits(t)
  }

  /** The value of the leading run of digits, None (NaN) when there is none. */
  function ParseDigits(u: string): Option<int>
  {
    var digits := DigitPrefix(u);
    if digits == [] then None else Some(DecimalValue(digits))
  }

  function Negated(r: Option<int>): Option<int>
  {
    if r.None? then None else Some(-r.value)
  }

  /** The decimal rendering of an integer, with a leading '-' when negative. */
  function IntString(n: int): (s: string)
    ensures s != [] && !IsJsWhitespace(s[0])
  {
    if n < 0 then "-" + DecimalString(-n) else DecimalString(n)
  }

  lemma {:induction false} DigitPrefixOfDigits(s: string, rest: string)
    requires forall i :: 0 <= i < |s| ==> IsDigit(s[i])
    requires rest == [] || !IsDigit(rest[0])
    ensures DigitPrefix(s + rest) == s
  {
    if s != [] {
      assert (s + rest)[1..] == s[1..] + rest;
      DigitPrefixOfDigits(s[1..], rest);
    } else {
      assert s + rest == rest;
    }
  }

  /** parseInt reads back the rendering of any integer, after any leading
      whitespace and before any suffix that does not start with a digit. */
  lemma {:induction false} ParseIntRoundTrip(n: int, lead: string, rest: string)
    requires AllWhitespace(lead)
    requires rest == [] || !IsDigit(rest[0])
    ensures ParseInt(lead + IntString(n) + rest) == Some(n)
  {
    var t := IntString(n) + rest;
    assert lead + IntString(n) + rest == lead + t;
    LeadingWhitespaceSkipped(lead, t);
    SignedRoundTrip(n, rest);
  }

  lemma ParseIntOfRendering(n: int)
    ensures ParseInt(IntString(n)) == Some(n)
  {
    var s := IntString(n);
    assert TrimStart(s) == s;
    SignedRoundTrip(n, []);
    assert s + [] == s;
  }

  lemma SignedRoundTrip(n: int, rest: string)
    requires rest == [] || !IsDigit(rest[0])
    ensures ParseSigned(IntString(n) + rest) == Some(n)
  {
    if n < 0 {
      var m: nat := -n;
      NegativeRendering(n, m, rest);
      NegativeRoundTrip(m, rest);
      NegatedMagnitude(n, m);
    } else {
      NonNegativeRoundTrip(n, rest);
    }
  }

  /** A negative number renders as '-' followed by the digits of its
      magnitude, so it parses like that. */
  lemma NegativeRendering(n: int, m: nat, rest: string)
    requires n < 0 && m == -n
    ensures ParseSigned(IntString(n) + rest) == ParseSigned(['-'] + (DecimalString(m) + rest))
  {
    MinusThenDigits(n, m);
    SignBeforeSuffix(DecimalString(m), rest);
  }

  lemma MinusThenDigits(n: int, m: nat)
    requires n < 0 && m == -n
    ensures IntString(n) == ['-'] + DecimalString(m)
  {
  }

  lemma SignBeforeSuffix(d: string, rest: string)
    ensures ParseSigned((['-'] + d) + rest) == ParseSigned(['-'] + (d + rest))
  {
    assert (['-'] + d) + rest == ['-'] + (d + rest);
  }

  /** '-' before the digits of m, and a suffix that does not start with a
      digit, reads back as the negation of m. */
  lemma NegativeRoundTrip(m: nat, rest: string)
    requires rest == [] || !IsDigit(rest[0])
    ensures ParseSigned(['-'] + (DecimalString(m) + rest)) == Negated(Some(m))
  {
    var u := DecimalString(m) + rest;
    MinusSign(u);
    DigitsReadBack(m, rest);
  }

  /** A leading '-' negates what the digits after it read as. */
  lemma MinusSign(u: string)
    ensures ParseSigned(['-'] + u) == Negated(ParseDigits(u))
  {
    assert (['-'] + u)[1..] == u;
  }

  lemma NegatedMagnitude(n: int, m: nat)
    requires m == -n
    ensures Negated(Some(m)) == Some(n)
  {
  }

  lemma NonNegativeRoundTrip(n: nat, rest: string)
    requires rest == [] || !IsDigit(rest[0])
    ensures ParseSigned(IntString(n) + rest) == Some(n)
  {
    var d := DecimalString(n);
    assert IntString(n) + rest == d + rest;
    assert (d + rest)[0] == d[0];
    DigitsReadBack(n, rest);
  }

  /** The digits of m, before a suffix that does not start with a digit,
      read back as m. */
  lemma DigitsReadBack(m: nat, rest: string)
    requires rest == [] || !IsDigit(rest[0])
    ensures DigitPrefix(DecimalString(m) + rest) == DecimalString(m)
    ensures ParseDigits(DecimalString(m) + rest) == Some(m)
  {
    DecimalRoundTrip(m);
    DigitPrefixOfDigits(DecimalString(m), rest);
  }

  lemma {:induction false} LeadingWhitespaceSkipped(lead: string, t: string)
    requires AllWhitespace(lead)
    requires t != [] && !IsJsWhitespace(t[0])
    ensures TrimStart(lead + t) == t
  {
    if lead == [] {
      assert lead + t == t;
    } else {
      assert (lead + t)[1..] == lead[1..] + t;
      LeadingWhitespaceSkipped(lead[1..], t);
    }
  }

  // ---------------------------------------------------------------------
  // Mongo ObjectId cast (the hexadecimal string form)

  predicate IsHexDigit(c: char)
  {
    ('0' <= c <= '9') || ('a' <= c <= 'f') || ('A' <= c <= 'F')
  }

  function LowerHexDigit(c: char): char
  {
    if 'A' <= c <= 'F' then (c as int - 'A' as int + 'a' as int) as char else c
  }

  /** Casting a string to an ObjectId succeeds for 24 hexadecimal digits and
      yields their canonical lower-case form; any other string is a CastError. */
  function CastObjectId(s: string): (r: Option<string>)
    ensures r.Some? <==> |s| == 24 && forall i :: 0 <= i < |s| ==> IsHexDigit(s[i])
    ensures r.Some? ==> |r.value| == 24 && forall i :: 0 <= i < 24 ==> IsHexDigit(r.value[i]) && !('A' <= r.value[i] <= 'F')
    ensures r.Some? ==> forall i :: 0 <= i < 24 ==> r.value[i] == LowerHexDigit(s[i])
  {
    if |s| == 24 && forall i :: 0 <= i < |s| ==> IsHexDigit(s[i])
    then Some(seq(24, i requires 0 <= i < 24 => LowerHexDigit(s[i])))
    else None
  }

  /** The canonical form of an ObjectId casts to itself. */
  lemma CastCanonical(s: string)
    requires CastObjectId(s).Some?
    ensures CastObjectId(CastObjectId(s).value) == CastObjectId(s)
  {
    var c := CastObjectId(s).value;
    assert forall i :: 0 <= i < 24 ==> LowerHexDigit(c[i]) == c[i];
    assert seq(24, i requires 0 <= i < 24 => LowerHexDigit(c[i])) == c;
  }
}
