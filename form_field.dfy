/**
 * How one field renders its input: the `"Label=value"` option codec, the checkbox
 * and radio "checked" rules, the checkbox `onChange` that edits the list of checked
 * values, the required rule of the first checkbox, the options of a select, and
 * the label with its required asterisk.
 */
module FormField {
  import opened Optional
  import opened Arrays
  import opened Strings
  import opened FieldKinds
  import Schema

  /** One rendered option: the text shown and its `value`, undefined when the option has no "=". */
  datatype Choice = Choice(caption: string, value: Option<string>)

  /** `const [label, value] = option.split("=")`: the first two parts, the rest dropped. */
  function ParseOption(option: string): (c: Choice)
    ensures '=' !in c.caption
    ensures c.value.Some? ==> '=' !in c.value.value
    ensures c.value.None? <==> '=' !in option
    ensures c.value.None? ==> c.caption == option
    ensures c.value.Some? ==>
      var n := |c.caption| + 1 + |c.value.value|;
      && n <= |option|
      && option[..n] == c.caption + "=" + c.value.value
      && (n == |option| || option[n] == '=')
  {
    var parts := Split(option, '=');
    SplitHead(option, '=');
    if |parts| == 1 then
      assert option == option[..|parts[0]|];
      Choice(parts[0], None)
    else
      var k := |parts[0]|;
      var rest := option[k + 1..];
      SplitHead(rest, '=');
      assert option[k] in option;
      assert option[..k + 1 + |parts[1]|] == option[..k] + "=" + rest[..|parts[1]|];
      Choice(parts[0], Some(parts[1]))
  }

  /** The settings format `label + "=" + value` is decoded back when neither part holds a "=". */
  lemma ParseEncodedOption(caption: string, value: string)
    requires '=' !in caption && '=' !in value
    ensures ParseOption(caption + "=" + value) == Choice(caption, Some(value))
  {
    SplitAtSeparator(caption, '=', value);
    SplitNoSeparator(value, '=');
  }

  /** `s || fallback` for an optional string key: a missing or empty string falls back. */
  function TextOr(s: Option<string>, fallback: string): (r: string)
    ensures s.Some? && s.value != "" ==> r == s.value
    ensures s.None? || s.value == "" ==> r == fallback
  {
    if s.Some? && s.value != "" then s.value else fallback
  }

  /** The options of a select: an empty-value entry showing the placeholder, then the parsed options. */
  function SelectChoices(f: Schema.Field): (r: seq<Choice>)
    ensures |r| == 1 + (if f.options.Some? then |f.options.value| else 0)
    ensures r[0] == Choice(TextOr(f.placeholder, "Select an option"), Some(""))
    ensures f.options.Some? ==>
      forall i :: 0 <= i < |f.options.value| ==> r[i + 1] == ParseOption(f.options.value[i])
  {
    var opts := if f.options.Some? then f.options.value else [];
    [Choice(TextOr(f.placeholder, "Select an option"), Some(""))]
      + seq(|opts|, i requires 0 <= i < |opts| => ParseOption(opts[i]))
  }

  // ---------------------------------------------------------------- values

  /** A value of the fill-mode form data: missing, a string, a flag, or a list of checked values. */
  datatype Input = Undefined | Str(s: string) | Bool(b: bool) | Arr(items: seq<Option<string>>)

  /** JavaScript truthiness: arrays are always truthy, strings when non-empty. */
  predicate Truthy(v: Input)
  {
    match v
    case Undefined => false
    case Str(s) => s != ""
    case Bool(b) => b
    case Arr(_) => true
  }

  /** The values a checkbox group can receive: a list, or a falsy value read as `[]`. */
  predicate IsListOrFalsy(v: Input)
  {
    v.Arr? || !Truthy(v)
  }

  /** `value || []`. */
  function CheckedValues(v: Input): seq<Option<string>>
    requires IsListOrFalsy(v)
  {
    if v.Arr? then v.items else []
  }

  /** `Array.isArray(value) && value.includes(val)`. */
  predicate IsChecked(value: Input, val: Option<string>)
  {
    value.Arr? && val in value.items
  }

  /** `value === val` for a radio button; an option without "=" has an undefined value. */
  predicate RadioChecked(value: Input, val: Option<string>)
  {
    match val
    case None => value == Undefined
    case Some(v) => value == Str(v)
  }

  function Differs(val: Option<string>): Option<string> -> bool
  {
    v => v != val
  }

  /**
   * The checkbox `onChange`: checking passes `[...(value || []), val]`,
   * unchecking passes `(value || []).filter(v => v !== val)`.
   */
  function CheckboxChange(value: Input, val: Option<string>, checked: bool): (r: Input)
    requires IsListOrFalsy(value)
    ensures r.Arr?
    ensures checked ==> |r.items| == |CheckedValues(value)| + 1
    ensures !checked ==> |r.items| <= |CheckedValues(value)|
  {
    if checked then Arr(CheckedValues(value) + [val])
    else Arr(Filter(CheckedValues(value), Differs(val)))
  }

  /** Checking a box adds its value at the end and keeps the values already checked, in order. */
  lemma CheckAppends(value: Input, val: Option<string>)
    requires IsListOrFalsy(value)
    ensures var r := CheckboxChange(value, val, true);
      && IsChecked(r, val)
      && r.items[..|CheckedValues(value)|] == CheckedValues(value)
      && r.items[|CheckedValues(value)|] == val
  {
  }

  /** Unchecking a box removes every occurrence of its value and keeps all other values. */
  lemma UncheckRemoves(value: Input, val: Option<string>)
    requires IsListOrFalsy(value)
    ensures var r := CheckboxChange(value, val, false);
      && !IsChecked(r, val)
      && (forall x :: x in r.items <==> x in CheckedValues(value) && x != val)
      && (val !in CheckedValues(value) ==> r.items == CheckedValues(value))
  {
    var list := CheckedValues(value);
    forall x ensures x in CheckboxChange(value, val, false).items <==> x in list && x != val {
      FilterMembers(list, Differs(val), x);
    }
    if val !in list {
      FilterKeepsAll(list, Differs(val));
    }
  }

  /** A box shows checked after its change exactly when the change checked it; every other box keeps its state. */
  lemma CheckedAfterChange(value: Input, val: Option<string>, checked: bool, other: Option<string>)
    requires IsListOrFalsy(value)
    ensures IsChecked(CheckboxChange(value, val, checked), val) == checked
    ensures other != val ==>
      (IsChecked(CheckboxChange(value, val, checked), other) <==> other in CheckedValues(value))
  {
    if !checked {
      UncheckRemoves(value, val);
    }
  }

  /**
   * After a radio option is chosen (its `e.target.value` stored), the buttons shown
   * checked are those whose value is the chosen one; an option without "=" is not among them.
   */
  lemma RadioChoiceChecks(chosen: string, val: Option<string>)
    ensures RadioChecked(Str(chosen), val) <==> val == Some(chosen)
  {
  }

  /** `value?.length` is a non-zero number. */
  predicate HasLength(v: Input)
  {
    match v
    case Str(s) => |s| > 0
    case Arr(items) => |items| > 0
    case _ => false
  }

  /** `required` on the checkbox at `idx`: only the first, only while nothing is selected. */
  predicate CheckboxRequired(required: bool, idx: nat, value: Input)
  {
    required && idx == 0 && !HasLength(value)
  }

  /** The browser's required check sits on the first box of a required group exactly while no box is checked. */
  lemma RequiredIffNothingChecked(required: bool, idx: nat, value: Input)
    requires IsListOrFalsy(value)
    ensures CheckboxRequired(required, idx, value) <==> required && idx == 0 && CheckedValues(value) == []
  {
  }

  /** Checking any box lifts the requirement on the first one. */
  lemma CheckingLiftsRequired(required: bool, value: Input, val: Option<string>)
    requires IsListOrFalsy(value)
    ensures !CheckboxRequired(required, 0, CheckboxChange(value, val, true))
  {
  }

  /** Unchecking the only checked value puts the requirement of the field back on the first box. */
  lemma UncheckingLastRestoresRequired(required: bool, items: seq<Option<string>>, val: Option<string>)
    requires forall i :: 0 <= i < |items| ==> items[i] == val
    ensures CheckboxRequired(required, 0, CheckboxChange(Arr(items), val, false)) == required
  {
    var r := CheckboxChange(Arr(items), val, false).items;
    if |r| > 0 {
      FilterMembers(items, Differs(val), r[0]);
    }
  }

  // ---------------------------------------------------------------- label

  /** The label text: a blank for an acceptance field, whose text is its content. */
  function LabelCaption(f: Schema.Field): string
  {
    if f.kind == Acceptance then " " else f.labelText
  }

  /** The asterisk after the label. */
  predicate LabelAsterisk(f: Schema.Field)
  {
    f.required && f.kind != Acceptance
  }

  /** The asterisk an acceptance field shows after its content instead. */
  predicate ContentAsterisk(f: Schema.Field)
  {
    f.kind == Acceptance && f.required
  }

  /** A field shows exactly one asterisk when it is required and none otherwise. */
  lemma OneAsteriskIffRequired(f: Schema.Field)
    ensures LabelAsterisk(f) || ContentAsterisk(f) <==> f.required
    ensures !(LabelAsterisk(f) && ContentAsterisk(f))
    ensures f.kind == Acceptance ==> LabelCaption(f) == " " && !LabelAsterisk(f)
  {
  }
}
