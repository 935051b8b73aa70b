/** The field validator: a descriptor carries one form value and the rules
    that apply to it; each rule is switched on by the presence of its field,
    and the value is valid when every switched-on rule holds. */
module Validation {
  import opened Wrappers
  import opened JsText

  /** The value of a field: the source's `string | number`, decided when the
      descriptor is built. Numbers are integers here. */
  datatype Value = Text(text: string) | Num(num: int)

  /** The `Validatable` shape. An absent optional field is `None`. The
      `min` and `max` fields are part of the shape but no rule reads them. */
  datatype Validatable = Validatable(
    value: Value,
    required: bool,
    minLength: Option<int>,
    maxLength: Option<int>,
    min: Option<int>,
    max: Option<int>)

  /** The value's `toString()`: a text is itself; a number's text is never
      empty, starts with a minus sign exactly when the number is negative,
      and never starts with whitespace. */
  function TextForm(v: Value): (r: string)
    ensures v.Text? ==> r == v.text
    ensures v.Num? ==> r != [] && !IsWhitespace(r[0]) && (v.num < 0 <==> r[0] == '-')
  {
    match v
    case Text(s) => s
    case Num(n) => IntToText(n)
  }

  /** `required`: the text form, trimmed, is not empty. Only a text can
      fail it: the text form of a number is never blank. */
  predicate RequiredRule(d: Validatable)
    ensures !RequiredRule(d) ==> d.required && d.value.Text?
  {
    var t := TextForm(d.value);
    TrimEmptyIffBlank(t);
    assert d.value.Num? ==> !IsWhitespace(t[0]);
    d.required ==> Utf16Length(Trim(t)) != 0
  }

  /** `minLength`, on text values only: the untrimmed length is strictly
      greater than the bound. A text with more characters than the bound
      always passes, since every character counts at least once. */
  predicate MinLengthRule(d: Validatable)
    ensures !MinLengthRule(d) ==> d.value.Text? && d.minLength.Some?
    ensures d.value.Text? && d.minLength.Some? && |d.value.text| > d.minLength.value ==> MinLengthRule(d)
  {
    d.minLength.Some? && d.value.Text? ==> Utf16Length(d.value.text) > d.minLength.value
  }

  /** `maxLength`, on text values only: the untrimmed length is strictly
      less than the bound. A text that passes has fewer characters than the
      bound. */
  predicate MaxLengthRule(d: Validatable)
    ensures !MaxLengthRule(d) ==> d.value.Text? && d.maxLength.Some?
    ensures MaxLengthRule(d) && d.value.Text? && d.maxLength.Some? ==> |d.value.text| < d.maxLength.value
  {
    d.maxLength.Some? && d.value.Text? ==> Utf16Length(d.value.text) < d.maxLength.value
  }

  /** What `validate` decides: every rule that is switched on holds. A valid
      required value has a visible character. */
  predicate Valid(d: Validatable)
    ensures Valid(d) && d.required ==> HasVisible(TextForm(d.value))
  {
    TrimEmptyIffBlank(TextForm(d.value));
    RequiredRule(d) && MinLengthRule(d) && MaxLengthRule(d)
  }

  /** `validate`: an accumulator that starts out true and is and-ed with
      each switched-on rule in turn. */
  method Validate(d: Validatable) returns (isValid: bool)
    ensures isValid == Valid(d)
  {
    isValid := true;
    if d.required {
      isValid := isValid && Utf16Length(Trim(TextForm(d.value))) != 0;
    }
    if d.minLength.Some? && d.value.Text? {
      isValid := isValid && Utf16Length(d.value.text) > d.minLength.value;
    }
    if d.maxLength.Some? && d.value.Text? {
      isValid := isValid && Utf16Length(d.value.text) < d.maxLength.value;
    }
  }

  /** With `required` set, the rule rejects exactly the values whose text form
      is empty or all whitespace. */
  lemma RequiredRejectsBlank(d: Validatable)
    requires d.required
    ensures RequiredRule(d) <==> HasVisible(TextForm(d.value))
    ensures !HasVisible(TextForm(d.value)) ==> !Valid(d)
  {
    TrimEmptyIffBlank(TextForm(d.value));
  }

  /** A text whose first character is visible passes `required`: trimming
      cannot remove that character. */
  lemma VisibleFirstPassesRequired(d: Validatable, s: string)
    requires d.value == Text(s) && s != [] && !IsWhitespace(s[0])
    ensures RequiredRule(d)
  {
    assert TrimStart(s) == s;
  }

  /** A descriptor with no rule switched on accepts every value. */
  lemma NoRulesAcceptsAll(d: Validatable)
    requires !d.required && d.minLength.None? && d.maxLength.None?
    ensures Valid(d)
  {
  }

  /** The full decision on a text value: visible content when required, and
      the untrimmed length strictly inside whichever bounds are present. */
  lemma ValidText(d: Validatable, s: string)
    requires d.value == Text(s)
    ensures Valid(d) <==>
      (d.required ==> HasVisible(s)) &&
      (d.minLength.Some? ==> Utf16Length(s) > d.minLength.value) &&
      (d.maxLength.Some? ==> Utf16Length(s) < d.maxLength.value)
  {
    TrimEmptyIffBlank(s);
  }

  /** A numeric value is always accepted: its text form is never blank and
      the length rules skip numbers, so no bound ever applies to it. */
  lemma NumberAlwaysValid(d: Validatable, n: int)
    requires d.value == Num(n)
    ensures Valid(d)
  {
  }

  /** The result never depends on `min` or `max`. */
  lemma IgnoresMinMax(d: Validatable, min: Option<int>, max: Option<int>)
    ensures Valid(d) == Valid(d.(min := min, max := max))
  {
  }

  /** The result never depends on `minLength` or `maxLength` when the value
      is a number. */
  lemma NumberIgnoresLengthBounds(d: Validatable, minLength: Option<int>, maxLength: Option<int>)
    requires d.value.Num?
    ensures Valid(d) == Valid(d.(minLength := minLength, maxLength := maxLength))
  {
  }

  /** Both length bounds are strict: a text exactly as long as `minLength`
      or as `maxLength` is rejected. */
  lemma LengthBoundsAreStrict(s: string, n: int)
    requires Utf16Length(s) == n
    ensures !Valid(Validatable(Text(s), false, Some(n), None, None, None))
    ensures !Valid(Validatable(Text(s), false, None, Some(n), None, None))
  {
  }

  /** The `required` rule on literal values: empty and all-blank text is
      rejected, text with a visible character is accepted. */
  lemma RequiredExamples()
    ensures !Valid(Validatable(Text(""), true, None, None, None, None))
    ensures !Valid(Validatable(Text("   "), true, None, None, None, None))
    ensures Valid(Validatable(Text("ok"), true, None, None, None, None))
  {
    assert !Valid(Validatable(Text("   "), true, None, None, None, None)) by {
      ValidText(Validatable(Text("   "), true, None, None, None, None), "   ");
    }
    VisibleFirstPassesRequired(Validatable(Text("ok"), true, None, None, None, None), "ok");
  }

  /** The description rule `required` with `minLength: 5`, on text without
      characters beyond U+FFFF: it passes exactly when the text has a visible
      character and at least 6 characters, whitespace included. So "abcd"
      and "abcde" fail, "abcdef" and "  ab  " pass. */
  lemma MinLengthFiveBoundary(s: string)
    requires forall i :: 0 <= i < |s| ==> s[i] as int <= 0xFFFF
    ensures Valid(Validatable(Text(s), true, Some(5), None, None, None)) <==> HasVisible(s) && |s| >= 6
  {
    Utf16LengthOfBmp(s);
    ValidText(Validatable(Text(s), true, Some(5), None, None, None), s);
  }

  /** `min: 1, max: 5` on numbers is not enforced: 1 and 9 both pass. */
  lemma NumberBoundsExamples()
    ensures Valid(Validatable(Num(1), true, None, None, Some(1), Some(5)))
    ensures Valid(Validatable(Num(9), true, None, None, Some(1), Some(5)))
  {
    NumberAlwaysValid(Validatable(Num(1), true, None, None, Some(1), Some(5)), 1);
    NumberAlwaysValid(Validatable(Num(9), true, None, None, Some(1), Some(5)), 9);
  }
}
