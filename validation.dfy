/** The fluent field validator of DemirPHP (src/DemirPHP/Validation.php).

    The PHP class keeps one static state: the input array `$fields`, the
    current field key `$field` with its optional label `$title`, and the
    error array `$errors`. `field()` moves the cursor, and every check tests
    the current field's value and, when the value is rejected, stores one
    rendered message at `$errors[$field]`, replacing any earlier one.

    Here that state is one object of class `Validation`. The library
    predicates whose definitions are not part of PHP source (`filter_var`,
    `is_numeric`, `date_parse`) are passed in as function values; the
    `ctype_*` classes get their C-locale definitions. */
module DemirPHP {
  import opened Wrappers
  import opened Php
  import opened ErrorSink

  // ---------------------------------------------------------------------
  // the message table
  // ---------------------------------------------------------------------

  /** The checks that have an entry in `$messages`. */
  datatype Rule =
    | Required | Empty | Email | Url | Same | Ip | Min | Max
    | Alpha | Alnum | Numeric | Float | Time | Upper | Lower

  /** How many arguments the check passes to `sprintf`: the label, and for
      `min`, `max` and `same` one more (the bound or the other key). */
  function Arity(rule: Rule): nat {
    match rule
    case Min => 2
    case Max => 2
    case Same => 2
    case _ => 1
  }

  const Hole: string := "%s"

  /** The wording of each default message (`$messages`): the text after
      the label's `%s`, and for `min` and `max` also the text after the
      bound's `%s`. Long texts are split in two literals. */
  const RequiredWording: string := " alanı gereklidir"
  const EmptyWording: string := " alanı boş bırakılamaz"
  const EmailWording: string := " alanı geçerli bir e-posta" + " adresi içermiyor"
  const UrlWording: string := " alanı geçerli bir URL içermiyor"
  const SameWording: string := " alanı diğeriyle uyuşmuyor," + " alanlar aynı değerleri içermelidir"
  const IpWording: string := " alanı geçerli bir IP adresi içermiyor"
  const MinWording: string := " alanı çok kısa, en az "
  const MinUnit: string := " karakter içermelidir"
  const MaxWording: string := " alanı çok uzun, en fazla "
  const MaxUnit: string := " karakter girilebilir"
  const AlphaWording: string := " alanı sadece harf içerebilir" + " (Türkçe karakter hariç)"
  const AlnumWording: string := " alanı sadece harf ve sayı içeriebilir" + " (Türkçe karakter hariç)"
  const NumericWording: string := " alanı sadece rakam içerebilir (0-9)"
  const FloatWording: string := " alanı sadece kesirli/ondalık" + " sayı içerebilir"
  const TimeWording: string := " alanı geçerli bir tarih/zaman içermiyor"
  const UpperWording: string := " alanı yalnızca büyük harfler içerebilir" + " (Türkçe karakter hariç)"
  const LowerWording: string := " alanı yalnızca küçük harfler içerebilir" + " (Türkçe karakter hariç)"

  function Wording(rule: Rule): (string, Option<string>) {
    match rule
    case Required => (RequiredWording, None)
    case Empty => (EmptyWording, None)
    case Email => (EmailWording, None)
    case Url => (UrlWording, None)
    case Same => (SameWording, None)
    case Ip => (IpWording, None)
    case Min => (MinWording, Some(MinUnit))
    case Max => (MaxWording, Some(MaxUnit))
    case Alpha => (AlphaWording, None)
    case Alnum => (AlnumWording, None)
    case Numeric => (NumericWording, None)
    case Float => (FloatWording, None)
    case Time => (TimeWording, None)
    case Upper => (UpperWording, None)
    case Lower => (LowerWording, None)
  }

  /** `$messages[rule]`: a valid template for the arguments its check
      passes, with a placeholder for each of them except the other key of
      `same`, which its default message never shows. */
  function DefaultTemplate(rule: Rule): (t: string)
    ensures Fits(t, Arity(rule))
    ensures Holes(t) == if rule == Same then 1 else Arity(rule)
  {
    WordingPlain(rule);
    match Wording(rule)
    case (a, None) =>
      OneHoleTemplate(a, "");
      Hole + a
    case (a, Some(b)) =>
      TwoHoleTemplate(a, b, "", "");
      Hole + a + Hole + b
  }

  /** Every default message is a valid `sprintf` template for the arguments
      its check passes, and renders as the label followed by the rule's
      wording (with the bound in the middle for `min` and `max`); the
      default `same` message does not show the other field. */
  lemma DefaultMessage(rule: Rule, args: seq<string>)
    requires |args| == Arity(rule)
    ensures Fits(DefaultTemplate(rule), Arity(rule))
    ensures Format(DefaultTemplate(rule), args) ==
      match Wording(rule)
      case (a, None) => args[0] + a
      case (a, Some(b)) => args[0] + a + args[1] + b
  {
    WordingPlain(rule);
    var (a, b) := Wording(rule);
    if b.None? {
      assert args == [args[0]] + args[1..];
      LeadingHole(a, args[0], args[1..]);
      PlainTemplate(a, args[1..]);
    } else {
      assert args == [args[0], args[1]];
      TwoHoleTemplate(a, b.value, args[0], args[1]);
    }
  }

  /** No default wording contains a `%`, and only `min` and `max` have a
      second placeholder. */
  lemma WordingPlain(rule: Rule)
    ensures '%' !in Wording(rule).0
    ensures Wording(rule).1.Some? <==> rule == Min || rule == Max
    ensures Wording(rule).1.Some? ==> '%' !in Wording(rule).1.value
  {
    PresenceWordingsPlain();
    SyntaxWordingsPlain();
    NumericWordingPlain();
    NumberWordingsPlain();
    BoundWordingsPlain();
    SameWordingPlain();
    LetterWordingsPlain();
    CaseWordingsPlain();
  }

  // The wordings are checked a few at a time to keep each proof small.

  lemma PresenceWordingsPlain()
    ensures '%' !in RequiredWording && '%' !in EmptyWording
  {
  }

  lemma SyntaxWordingsPlain()
    ensures '%' !in EmailWording && '%' !in UrlWording && '%' !in IpWording
  {
  }

  lemma NumericWordingPlain()
    ensures '%' !in NumericWording
  {
  }

  lemma NumberWordingsPlain()
    ensures '%' !in FloatWording && '%' !in TimeWording
  {
  }

  lemma BoundWordingsPlain()
    ensures '%' !in MinWording && '%' !in MinUnit && '%' !in MaxWording && '%' !in MaxUnit
  {
  }

  lemma SameWordingPlain()
    ensures '%' !in SameWording
  {
  }

  lemma LetterWordingsPlain()
    ensures '%' !in AlphaWording && '%' !in AlnumWording
  {
  }

  lemma CaseWordingsPlain()
    ensures '%' !in UpperWording && '%' !in LowerWording
  {
  }

  // ---------------------------------------------------------------------
  // labels and message selection
  // ---------------------------------------------------------------------

  /** `empty($title) ? $field : $title`: the name a message shows. */
  function Label(key: string, title: Option<string>): string {
    if title.None? || PhpEmpty(title.value) then key else title.value
  }

  /** `$message ? $message : $messages[rule]`: a falsy custom message
      (absent, `""` or `"0"`) falls back to the default. */
  function ChosenTemplate(message: Option<string>, rule: Rule): string {
    if message.Some? && !PhpEmpty(message.value) then message.value else DefaultTemplate(rule)
  }

  /** A custom message that `sprintf` renders without error. */
  predicate MessageFits(message: Option<string>, rule: Rule) {
    message.None? || PhpEmpty(message.value) || Fits(message.value, Arity(rule))
  }

  lemma ChosenTemplateFits(message: Option<string>, rule: Rule)
    requires MessageFits(message, rule)
    ensures Fits(ChosenTemplate(message, rule), Arity(rule))
  {
    if message.None? || PhpEmpty(message.value) {
      DefaultMessage(rule, seq(Arity(rule), _ => ""));
    }
  }

  /** The message a failing check stores for field `key`. */
  function Render(key: string, title: Option<string>, message: Option<string>, rule: Rule, extra: seq<string>): string {
    Format(ChosenTemplate(message, rule), [Label(key, title)] + extra)
  }

  /** A falsy custom message (`""` or `"0"`) stores the same text as no
      custom message at all. */
  lemma FalsyMessageUsesDefault(key: string, title: Option<string>, message: string, rule: Rule, extra: seq<string>)
    requires PhpEmpty(message)
    ensures Render(key, title, Some(message), rule, extra) == Render(key, title, None, rule, extra)
  {
  }

  /** A title that is set and truthy shows exactly where the key would have
      shown without a title. */
  lemma TitleShownAsKey(key: string, title: string, message: Option<string>, rule: Rule, extra: seq<string>)
    requires !PhpEmpty(title)
    ensures Render(key, Some(title), message, rule, extra) == Render(title, None, message, rule, extra)
  {
  }

  /** A falsy title (`""` or `"0"`) is ignored: the key shows instead. */
  lemma FalsyTitleShowsKey(key: string, title: string, message: Option<string>, rule: Rule, extra: seq<string>)
    requires PhpEmpty(title)
    ensures Render(key, Some(title), message, rule, extra) == Render(key, None, message, rule, extra)
  {
  }

  /** With no custom message, what is stored is the default wording around
      the resolved label. */
  lemma {:induction false} RenderDefault(key: string, title: Option<string>, rule: Rule, extra: seq<string>)
    requires |extra| + 1 == Arity(rule)
    ensures Render(key, title, None, rule, extra) ==
      match Wording(rule)
      case (a, None) => Label(key, title) + a
      case (a, Some(b)) => Label(key, title) + a + extra[0] + b
  {
    DefaultMessage(rule, [Label(key, title)] + extra);
  }

  // ---------------------------------------------------------------------
  // what each check rejects
  // ---------------------------------------------------------------------

  /** `hasField()`: the key is set and its value is not PHP-empty. */
  predicate Present(fields: map<string, string>, key: string) {
    key in fields && !PhpEmpty(fields[key])
  }

  /** `required` rejects an unset key, whatever else. */
  predicate RequiredFails(fields: map<string, string>, key: string) {
    key !in fields
  }

  /** `empty` rejects a set key whose value is PHP-empty. */
  predicate EmptyFails(fields: map<string, string>, key: string) {
    key in fields && PhpEmpty(fields[key])
  }

  /** Every other check: a present value that its predicate refuses. */
  predicate GuardedFails(fields: map<string, string>, key: string, accepts: string -> bool) {
    Present(fields, key) && !accepts(fields[key])
  }

  /** `max`: `mb_strlen($v) > $max` is rejected. */
  function AtMost(max: int): string -> bool {
    s => |s| <= max
  }

  /** `min`: `mb_strlen($v) < $min` is rejected. */
  function AtLeast(min: int): string -> bool {
    s => |s| >= min
  }

  /** `same`: the value must be identical to the other field's, and an
      unset other field (read as `false`) equals no string. */
  function SameAs(fields: map<string, string>, other: string): string -> bool {
    s => other in fields && fields[other] == s
  }

  predicate IsUpperChar(c: char) { 'A' <= c <= 'Z' }
  predicate IsLowerChar(c: char) { 'a' <= c <= 'z' }
  predicate IsDigitChar(c: char) { '0' <= c <= '9' }

  /** `ctype_alpha`, `ctype_upper`, `ctype_lower`, `ctype_alnum` in the C
      locale: a non-empty string of characters of the class. */
  predicate CtypeAlpha(s: string): (b: bool)
    ensures b ==> CtypeAlnum(s)
  {
    |s| > 0 && forall i :: 0 <= i < |s| ==> IsUpperChar(s[i]) || IsLowerChar(s[i])
  }

  predicate CtypeUpper(s: string): (b: bool)
    ensures b ==> CtypeAlpha(s)
  {
    |s| > 0 && forall i :: 0 <= i < |s| ==> IsUpperChar(s[i])
  }

  predicate CtypeLower(s: string): (b: bool)
    ensures b ==> CtypeAlpha(s)
  {
    |s| > 0 && forall i :: 0 <= i < |s| ==> IsLowerChar(s[i])
  }

  predicate CtypeAlnum(s: string): (b: bool)
    ensures (|s| > 0 && forall i :: 0 <= i < |s| ==> IsDigit(s[i])) ==> b
    ensures b ==> s != ""
  {
    |s| > 0 && forall i :: 0 <= i < |s| ==> IsUpperChar(s[i]) || IsLowerChar(s[i]) || IsDigitChar(s[i])
  }

  /** `float` as written: `!filter_var($v, FILTER_VALIDATE_FLOAT)` also
      rejects a value that does parse, when it parses to zero (0.0 is falsy). */
  predicate FloatFailsAsWritten(fields: map<string, string>, key: string, parseFloat: string -> Option<real>): (b: bool)
    ensures b ==> Present(fields, key)
    ensures GuardedFails(fields, key, ParsesAsFloat(parseFloat)) ==> b
  {
    Present(fields, key) && (parseFloat(fields[key]).None? || parseFloat(fields[key]).value == 0.0)
  }

  /** `float` as intended: the value must parse as a float. */
  function ParsesAsFloat(parseFloat: string -> Option<real>): string -> bool {
    s => parseFloat(s).Some?
  }

  // ---------------------------------------------------------------------
  // properties of the checks
  // ---------------------------------------------------------------------

  /** For any key exactly one holds: `required` rejects it, `empty` rejects
      it, or the guard of every other check lets it through. */
  lemma GuardPartition(fields: map<string, string>, key: string)
    ensures RequiredFails(fields, key) || EmptyFails(fields, key) || Present(fields, key)
    ensures !(RequiredFails(fields, key) && EmptyFails(fields, key))
    ensures !(RequiredFails(fields, key) && Present(fields, key))
    ensures !(EmptyFails(fields, key) && Present(fields, key))
  {
  }

  /** An unset or empty field passes every guarded check, whatever its
      predicate would say. */
  lemma GuardedChecksSkipUnsetOrEmpty(fields: map<string, string>, key: string, accepts: string -> bool)
    requires RequiredFails(fields, key) || EmptyFails(fields, key)
    ensures !GuardedFails(fields, key, accepts)
  {
  }

  /** `min` and `max` bounds: a present value fails `max(n)` iff longer
      than n, fails `min(n)` iff shorter than n, so length n passes both. */
  lemma LengthBounds(fields: map<string, string>, key: string, n: int)
    ensures GuardedFails(fields, key, AtMost(n)) <==> Present(fields, key) && |fields[key]| > n
    ensures GuardedFails(fields, key, AtLeast(n)) <==> Present(fields, key) && |fields[key]| < n
    ensures Present(fields, key) && |fields[key]| == n ==>
      !GuardedFails(fields, key, AtMost(n)) && !GuardedFails(fields, key, AtLeast(n))
  {
  }

  /** `same` gives the same verdict from either side when both fields are
      present (only the placement of the message differs). */
  lemma SameSymmetric(fields: map<string, string>, a: string, b: string)
    requires Present(fields, a) && Present(fields, b)
    ensures GuardedFails(fields, a, SameAs(fields, b)) == GuardedFails(fields, b, SameAs(fields, a))
  {
  }

  /** `same` against an unset field rejects every present value. */
  lemma SameUnsetOther(fields: map<string, string>, key: string, other: string)
    requires other !in fields
    ensures GuardedFails(fields, key, SameAs(fields, other)) <==> Present(fields, key)
  {
  }

  /** The character classes nest: upper or lower implies alpha implies alnum. */
  lemma CtypeNesting(s: string)
    ensures CtypeUpper(s) ==> CtypeAlpha(s)
    ensures CtypeLower(s) ==> CtypeAlpha(s)
    ensures CtypeAlpha(s) ==> CtypeAlnum(s)
    ensures !(CtypeUpper(s) && CtypeLower(s))
  {
    if |s| > 0 {
      assert IsUpperChar(s[0]) ==> !IsLowerChar(s[0]);
    }
  }

  /** The `float` check as written rejects a zero written "0.0", although
      it is a valid float; the intended check accepts it. */
  lemma FloatZeroRejected(fields: map<string, string>, key: string, parseFloat: string -> Option<real>)
    requires key in fields && fields[key] == "0.0"
    requires parseFloat("0.0") == Some(0.0)
    ensures FloatFailsAsWritten(fields, key, parseFloat)
    ensures !GuardedFails(fields, key, ParsesAsFloat(parseFloat))
  {
  }

  /** The intended `float` check rejects exactly the present values that
      do not parse, and agrees with the written one except on zero. */
  lemma FloatIntended(fields: map<string, string>, key: string, parseFloat: string -> Option<real>)
    ensures GuardedFails(fields, key, ParsesAsFloat(parseFloat)) <==>
      Present(fields, key) && parseFloat(fields[key]).None?
    ensures FloatFailsAsWritten(fields, key, parseFloat) <==>
      GuardedFails(fields, key, ParsesAsFloat(parseFloat)) ||
      (Present(fields, key) && parseFloat(fields[key]) == Some(0.0))
  {
  }

  // ---------------------------------------------------------------------
  // the validator
  // ---------------------------------------------------------------------

  class Validation {
    /** `$fields`: the input; an absent key is a key that is not set. */
    var fields: map<string, string>
    /** `$errors`, in insertion order. */
    var errors: seq<Entry>
    /** `$field`: the key of the current field (`null` reads as key ""). */
    var cur: string
    /** `$title`: the current field's label, if one was given. */
    var title: Option<string>

    ghost predicate Wellformed()
      reads this
    {
      UniqueKeys(errors)
    }

    /** What a check leaves in `errors`: the rendered message at the
        current key when it failed, the old store otherwise. */
    ghost function Outcome(before: seq<Entry>, failed: bool, rule: Rule, extra: seq<string>, message: Option<string>): seq<Entry>
      reads this
    {
      if failed then Put(before, cur, Render(cur, title, message, rule, extra)) else before
    }

    /** The initial static state. */
    constructor ()
      ensures Wellformed()
      ensures fields == map[] && errors == [] && cur == "" && title == None
    {
      fields := map[];
      errors := [];
      cur := "";
      title := None;
    }

    /** `fields($fields)`: replaces the input; earlier errors stay. */
    method Fields(input: map<string, string>)
      modifies this`fields
      ensures fields == input
      ensures errors == old(errors) && cur == old(cur) && title == old(title)
      ensures old(Wellformed()) ==> Wellformed()
    {
      fields := input;
    }

    /** `field($name, $title)`: moves the cursor and always drops the old
        label before taking the new one. */
    method Field(name: string, newTitle: Option<string> := None)
      modifies this`cur, this`title
      ensures cur == name && title == newTitle
      ensures fields == old(fields) && errors == old(errors)
      ensures old(Wellformed()) ==> Wellformed()
    {
      cur := name;
      title := None;
      if newTitle.Some? {
        title := newTitle;
      }
    }

    /** `getField()`: the current value, or `false` (None) when unset. */
    function GetField(): (r: Option<string>)
      reads this
      ensures r.Some? <==> !RequiredFails(fields, cur)
      ensures r.Some? ==> r.value == fields[cur]
    {
      if cur in fields then Some(fields[cur]) else None
    }

    /** `hasField()`: the guard of every check but `required` and `empty`. */
    function HasField(): (b: bool)
      reads this
      ensures b <==> GetField().Some? && !PhpEmpty(GetField().value)
      ensures b <==> !RequiredFails(fields, cur) && !EmptyFails(fields, cur)
    {
      cur in fields && !PhpEmpty(fields[cur])
    }

    /** The write shared by every check: `$errors[$field] = sprintf(...)`. */
    method Report(rule: Rule, extra: seq<string>, message: Option<string>)
      requires Wellformed()
      modifies this`errors
      ensures Wellformed()
      ensures errors == Outcome(old(errors), true, rule, extra, message)
    {
      PutKeepsUnique(errors, cur, Render(cur, title, message, rule, extra));
      errors := Put(errors, cur, Render(cur, title, message, rule, extra));
    }

    method Required(message: Option<string> := None)
      requires Wellformed() && MessageFits(message, Rule.Required)
      modifies this`errors
      ensures Wellformed()
      ensures errors == Outcome(old(errors), RequiredFails(fields, cur), Rule.Required, [], message)
    {
      if cur !in fields {
        Report(Rule.Required, [], message);
      }
    }

    method Empty(message: Option<string> := None)
      requires Wellformed() && MessageFits(message, Rule.Empty)
      modifies this`errors
      ensures Wellformed()
      ensures errors == Outcome(old(errors), EmptyFails(fields, cur), Rule.Empty, [], message)
    {
      if cur in fields && PhpEmpty(fields[cur]) {
        Report(Rule.Empty, [], message);
      }
    }

    /** `email`, with `filter_var(..., FILTER_VALIDATE_EMAIL)` as `isEmail`. */
    method Email(isEmail: string -> bool, message: Option<string> := None)
      requires Wellformed() && MessageFits(message, Rule.Email)
      modifies this`errors
      ensures Wellformed()
      ensures errors == Outcome(old(errors), GuardedFails(fields, cur, isEmail), Rule.Email, [], message)
    {
      if HasField() && !isEmail(fields[cur]) {
        Report(Rule.Email, [], message);
      }
    }

    /** `url`, with `filter_var(..., FILTER_VALIDATE_URL)` as `isUrl`. */
    method Url(isUrl: string -> bool, message: Option<string> := None)
      requires Wellformed() && MessageFits(message, Rule.Url)
      modifies this`errors
      ensures Wellformed()
      ensures errors == Outcome(old(errors), GuardedFails(fields, cur, isUrl), Rule.Url, [], message)
    {
      if HasField() && !isUrl(fields[cur]) {
        Report(Rule.Url, [], message);
      }
    }

    /** `ip`, with `filter_var(..., FILTER_VALIDATE_IP)` as `isIp`. */
    method Ip(isIp: string -> bool, message: Option<string> := None)
      requires Wellformed() && MessageFits(message, Rule.Ip)
      modifies this`errors
      ensures Wellformed()
      ensures errors == Outcome(old(errors), GuardedFails(fields, cur, isIp), Rule.Ip, [], message)
    {
      if HasField() && !isIp(fields[cur]) {
        Report(Rule.Ip, [], message);
      }
    }

    /** `float`, with `filter_var(..., FILTER_VALIDATE_FLOAT)` as
        `parseFloat`; rejects only what does not parse (see
        `FloatFailsAsWritten` for the source's zero case). */
    method Float(parseFloat: string -> Option<real>, message: Option<string> := None)
      requires Wellformed() && MessageFits(message, Rule.Float)
      modifies this`errors
      ensures Wellformed()
      ensures errors == Outcome(old(errors), GuardedFails(fields, cur, ParsesAsFloat(parseFloat)), Rule.Float, [], message)
    {
      if HasField() && parseFloat(fields[cur]).None? {
        Report(Rule.Float, [], message);
      }
    }

    /** `float` as the source has it: a value that parses to zero is
        rejected too (see Findings in the README). */
    method FloatAsWritten(parseFloat: string -> Option<real>, message: Option<string> := None)
      requires Wellformed() && MessageFits(message, Rule.Float)
      modifies this`errors
      ensures Wellformed()
      ensures errors == Outcome(old(errors), FloatFailsAsWritten(fields, cur, parseFloat), Rule.Float, [], message)
    {
      if HasField() && (parseFloat(fields[cur]).None? || parseFloat(fields[cur]).value == 0.0) {
        Report(Rule.Float, [], message);
      }
    }

    /** `max($max = 255)`: the bound is printed as the second argument. */
    method Max(max: int := 255, message: Option<string> := None)
      requires Wellformed() && MessageFits(message, Rule.Max)
      modifies this`errors
      ensures Wellformed()
      ensures errors == Outcome(old(errors), GuardedFails(fields, cur, AtMost(max)), Rule.Max, [IntToString(max)], message)
    {
      if HasField() && |fields[cur]| > max {
        Report(Rule.Max, [IntToString(max)], message);
      }
    }

    /** `min($min = 3)`: the bound is printed as the second argument. */
    method Min(min: int := 3, message: Option<string> := None)
      requires Wellformed() && MessageFits(message, Rule.Min)
      modifies this`errors
      ensures Wellformed()
      ensures errors == Outcome(old(errors), GuardedFails(fields, cur, AtLeast(min)), Rule.Min, [IntToString(min)], message)
    {
      if HasField() && |fields[cur]| < min {
        Report(Rule.Min, [IntToString(min)], message);
      }
    }

    /** `time`, with "`date_parse` reports no error" as `parsesAsDate`. */
    method Time(parsesAsDate: string -> bool, message: Option<string> := None)
      requires Wellformed() && MessageFits(message, Rule.Time)
      modifies this`errors
      ensures Wellformed()
      ensures errors == Outcome(old(errors), GuardedFails(fields, cur, parsesAsDate), Rule.Time, [], message)
    {
      if HasField() && !parsesAsDate(fields[cur]) {
        Report(Rule.Time, [], message);
      }
    }

    /** `same($field)`: the raw key `other`, not its label, is the second
        argument. */
    method Same(other: string, message: Option<string> := None)
      requires Wellformed() && MessageFits(message, Rule.Same)
      modifies this`errors
      ensures Wellformed()
      ensures errors == Outcome(old(errors), GuardedFails(fields, cur, SameAs(fields, other)), Rule.Same, [other], message)
    {
      var otherValue := if other in fields then Some(fields[other]) else None;
      if HasField() && otherValue != Some(fields[cur]) {
        Report(Rule.Same, [other], message);
      }
    }

    method Alpha(message: Option<string> := None)
      requires Wellformed() && MessageFits(message, Rule.Alpha)
      modifies this`errors
      ensures Wellformed()
      ensures errors == Outcome(old(errors), GuardedFails(fields, cur, CtypeAlpha), Rule.Alpha, [], message)
    {
      if HasField() && !CtypeAlpha(fields[cur]) {
        Report(Rule.Alpha, [], message);
      }
    }

    method Upper(message: Option<string> := None)
      requires Wellformed() && MessageFits(message, Rule.Upper)
      modifies this`errors
      ensures Wellformed()
      ensures errors == Outcome(old(errors), GuardedFails(fields, cur, CtypeUpper), Rule.Upper, [], message)
    {
      if HasField() && !CtypeUpper(fields[cur]) {
        Report(Rule.Upper, [], message);
      }
    }

    method Lower(message: Option<string> := None)
      requires Wellformed() && MessageFits(message, Rule.Lower)
      modifies this`errors
      ensures Wellformed()
      ensures errors == Outcome(old(errors), GuardedFails(fields, cur, CtypeLower), Rule.Lower, [], message)
    {
      if HasField() && !CtypeLower(fields[cur]) {
        Report(Rule.Lower, [], message);
      }
    }

    method Alnum(message: Option<string> := None)
      requires Wellformed() && MessageFits(message, Rule.Alnum)
      modifies this`errors
      ensures Wellformed()
      ensures errors == Outcome(old(errors), GuardedFails(fields, cur, CtypeAlnum), Rule.Alnum, [], message)
    {
      if HasField() && !CtypeAlnum(fields[cur]) {
        Report(Rule.Alnum, [], message);
      }
    }

    /** `numeric`, with `is_numeric` as `isNumeric`. */
    method Numeric(isNumeric: string -> bool, message: Option<string> := None)
      requires Wellformed() && MessageFits(message, Rule.Numeric)
      modifies this`errors
      ensures Wellformed()
      ensures errors == Outcome(old(errors), GuardedFails(fields, cur, isNumeric), Rule.Numeric, [], message)
    {
      if HasField() && !isNumeric(fields[cur]) {
        Report(Rule.Numeric, [], message);
      }
    }

    /** `getError($field)`: the stored message, or `false` (None). */
    function GetError(key: string): (r: Option<string>)
      reads this
      ensures r.Some? <==> key in Keys(errors)
      ensures r.Some? ==> (key, r.value) in errors
    {
      Lookup(errors, key)
    }

    /** `valid()`: no field has an error. */
    function Valid(): (b: bool)
      reads this
      ensures b <==> forall key :: GetError(key).None?
    {
      if errors == [] then true
      else
        assert GetError(errors[0].0).Some?;
        false
    }

    /** `getErrors()`: the store itself; each entry is what `getError`
        returns for its key. */
    function GetErrors(): (r: seq<Entry>)
      reads this
      requires Wellformed()
      ensures Keys(r) == Keys(errors) && Messages(r) == Messages(errors)
      ensures UniqueKeys(r)
      ensures forall i :: 0 <= i < |r| ==> GetError(r[i].0) == Some(r[i].1)
    {
      LookupAll(errors);
      errors
    }

    /** `getErrorsAsString()`: `null` (None) without errors, else every
        message followed by `<br>`, in insertion order. */
    method GetErrorsAsString() returns (r: Option<string>)
      ensures errors == [] ==> r == None
      ensures errors != [] ==> r == Some(JoinBr(Messages(errors)))
    {
      r := None;
      if errors != [] {
        var i := 0;
        while i < |errors|
          invariant 0 <= i <= |errors|
          invariant r == if i == 0 then None else Some(JoinBr(Messages(errors[..i])))
        {
          assert Messages(errors[..i + 1]) == Messages(errors[..i]) + [errors[i].1];
          JoinBrSnoc(Messages(errors[..i]), errors[i].1);
          r := Some(r.GetOr("") + errors[i].1 + Br);
          i := i + 1;
        }
        assert errors[..i] == errors;
      }
    }
  }

  /** What a caller can conclude from the contracts alone: of two failing
      checks on one field the later message stays, under the field's
      first position, and `required` on an unset second field adds an
      entry after it. */
  method LastFailingCheckWins(tooShort: string, notEmail: string, missing: string)
    requires Fits(tooShort, 2) && Fits(notEmail, 1) && Fits(missing, 1)
    requires !PhpEmpty(tooShort) && !PhpEmpty(notEmail) && !PhpEmpty(missing)
  {
    var v := new Validation();
    v.Fields(map["name" := "ab"]);
    v.Field("name");
    v.Min(3, Some(tooShort));
    assert |v.errors| == 1 && v.errors[0].0 == "name";
    v.Email(_ => false, Some(notEmail));
    ghost var m1 := Format(notEmail, ["name"]);
    assert ["name"] + [] == ["name"];
    assert v.errors == [("name", m1)];
    v.Field("age");
    assert "age" !in v.fields && v.title == None;
    v.Required(Some(missing));
    ghost var m2 := Format(missing, ["age"]);
    assert ["age"] + [] == ["age"];
    assert Put([("name", m1)], "age", m2) == [("name", m1), ("age", m2)];
    assert v.errors == [("name", m1), ("age", m2)];
    var ok := v.Valid();
    var e := v.GetError("name");
    assert !ok && e == Some(m1);
  }
}
