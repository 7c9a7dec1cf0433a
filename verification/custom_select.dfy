/** The select with a free-text "other" entry (src/components/ui/custom-select.tsx). The
    parent owns `value`; the component keeps whether it is in custom mode, the custom
    text and whether the popover is open. A handler returns the new state and the value
    it hands to `onChange`, if any. The trigger's measured width is left out. */
module CustomSelect {
  import opened Wrappers
  import opened Text

  /** An entry of the list; `caption` is the source's `label` (a keyword here). */
  datatype SelectOption = SelectOption(value: string, caption: string)

  /** The labels the component falls back to when the parent gives none. */
  const DefaultPlaceholder := "Chọn một giá trị"
  const DefaultOtherLabel := "Khác..."

  /** The value the "other" entry reports when it is chosen. */
  const OtherValue := "other"

  datatype State = State(open: bool, isCustom: bool, customInput: string)

  const InitialState := State(false, false, "")

  /** The state after a handler and the value handed to `onChange`, if any. */
  datatype Handled = Handled(state: State, emitted: Option<string>)

  /** Whether some option has the value. */
  predicate InOptions(options: seq<SelectOption>, value: string) {
    exists i :: 0 <= i < |options| && options[i].value == value
  }

  /** The effect that runs when `value` or `options` change: custom mode is on exactly
      when the value is non-empty and no option has it, and entering it that way copies
      the value into the custom text. The popover is untouched. */
  function Sync(s: State, options: seq<SelectOption>, value: string): (r: State)
    ensures r.isCustom <==> value != "" && !InOptions(options, value)
    ensures r.isCustom ==> r.customInput == value
    ensures !r.isCustom ==> r.customInput == s.customInput
    ensures r.open == s.open
  {
    var custom := value != "" && !InOptions(options, value);
    State(s.open, custom, if custom then value else s.customInput)
  }

  /** `handleSelectChange`: the "other" entry switches to custom mode and reports
      nothing; any other entry leaves custom mode, reports its value and closes. */
  function HandleSelectChange(s: State, current: string): (r: Handled)
    ensures current == OtherValue ==> r == Handled(s.(isCustom := true), None)
    ensures current != OtherValue ==>
              r.emitted == Some(current) && !r.state.isCustom && !r.state.open
              && r.state.customInput == s.customInput
  {
    if current == OtherValue then Handled(s.(isCustom := true), None)
    else Handled(s.(isCustom := false, open := false), Some(current))
  }

  /** `handleCustomInputChange`: only the custom text changes. */
  function HandleCustomInputChange(s: State, text: string): (r: State)
    ensures r.customInput == text && r.isCustom == s.isCustom && r.open == s.open
  {
    s.(customInput := text)
  }

  /** `handleCustomInputBlur`: reports the trimmed custom text when it is not blank;
      the state is untouched. */
  function HandleCustomInputBlur(s: State): (r: Handled)
    ensures r.state == s
    ensures r.emitted.Some? <==> !IsBlank(s.customInput)
    ensures r.emitted.Some? ==> r.emitted.value == Trim(s.customInput) && r.emitted.value != ""
  {
    TrimEmptyIffBlank(s.customInput);
    if Trim(s.customInput) != "" then Handled(s, Some(Trim(s.customInput))) else Handled(s, None)
  }

  /** `handleCustomInputKeyDown`: Enter on a non-blank custom text reports its trim and
      closes the popover; any other key, or a blank text, does nothing. */
  function HandleCustomInputKeyDown(s: State, key: string): (r: Handled)
    ensures r.emitted.Some? <==> key == "Enter" && !IsBlank(s.customInput)
    ensures r.emitted.Some? ==>
              r.emitted == HandleCustomInputBlur(s).emitted && r.state == s.(open := false)
    ensures r.emitted.None? ==> r.state == s
  {
    TrimEmptyIffBlank(s.customInput);
    if key == "Enter" && Trim(s.customInput) != "" then Handled(s.(open := false), Some(Trim(s.customInput)))
    else Handled(s, None)
  }

  /** `toggleBackToSelect`: leaves custom mode and keeps the custom text. */
  function ToggleBackToSelect(s: State): (r: State)
    ensures !r.isCustom && r.customInput == s.customInput && r.open == s.open
  {
    s.(isCustom := false)
  }

  /** The `find`: the label of the first option with the value, if there is one. */
  function FindLabel(options: seq<SelectOption>, value: string): (r: Option<string>)
    ensures r.Some? <==> InOptions(options, value)
    ensures r.Some? ==> exists k :: 0 <= k < |options| && options[k].value == value
                          && r.value == options[k].caption
                          && forall j :: 0 <= j < k ==> options[j].value != value
    decreases |options|
  {
    if |options| == 0 then None
    else if options[0].value == value then Some(options[0].caption)
    else
      var r := FindLabel(options[1..], value);
      assert InOptions(options, value) ==> InOptions(options[1..], value) by {
        if InOptions(options, value) {
          var i :| 0 <= i < |options| && options[i].value == value;
          assert options[1..][i - 1] == options[i];
        }
      }
      assert r.Some? ==> InOptions(options, value)
                         && (exists k :: 0 <= k < |options| && options[k].value == value
                               && r.value == options[k].caption
                               && forall j :: 0 <= j < k ==> options[j].value != value) by {
        if r.Some? {
          var k :| 0 <= k < |options[1..]| && options[1..][k].value == value
                   && r.value == options[1..][k].caption
                   && forall j :: 0 <= j < k ==> options[1..][j].value != value;
          assert options[k + 1] == options[1..][k];
          assert forall j :: 1 <= j < k + 1 ==> options[j] == options[1..][j - 1];
        }
      }
      r
  }

  /** The first option with a value is the one whose label the search returns. */
  lemma FirstMatchIsFound(options: seq<SelectOption>, value: string)
    ensures forall k :: 0 <= k < |options| && options[k].value == value
                        && (forall j :: 0 <= j < k ==> options[j].value != value) ==>
              FindLabel(options, value) == Some(options[k].caption)
  {
  }

  /** The text on the trigger: in custom mode the custom text, or the "other" label when
      it is empty; otherwise, for a non-empty value, the label of the first option with
      it, or the value itself when there is none or the label is empty; otherwise the
      placeholder. */
  function TriggerLabel(s: State, options: seq<SelectOption>, value: string, placeholder: string, otherLabel: string): (r: string)
    ensures s.isCustom ==> r == (if s.customInput != "" then s.customInput else otherLabel)
    ensures !s.isCustom && value == "" ==> r == placeholder
    ensures !s.isCustom && value != "" && !InOptions(options, value) ==> r == value
    ensures !s.isCustom && value != "" ==>
              forall k :: 0 <= k < |options| && options[k].value == value
                          && (forall j :: 0 <= j < k ==> options[j].value != value) ==>
                r == (if options[k].caption != "" then options[k].caption else value)
  {
    FirstMatchIsFound(options, value);
    if s.isCustom then
      if s.customInput != "" then s.customInput else otherLabel
    else if value != "" then
      match FindLabel(options, value)
      case Some(caption) => if caption != "" then caption else value
      case None => value
    else placeholder
  }

  /** Once the parent takes a value that no option has, the trigger shows that value. */
  lemma ExternalCustomValueIsShown(s: State, options: seq<SelectOption>, value: string, placeholder: string, otherLabel: string)
    requires value != "" && !InOptions(options, value)
    ensures TriggerLabel(Sync(s, options, value), options, value, placeholder, otherLabel) == value
  {
  }

  /** Typing a text and leaving the field hands its trim to the parent; when the parent
      takes it and no option has it, the component stays in custom mode showing exactly
      that text, and leaving the field again reports the same value. */
  lemma BlurRoundTrip(s: State, options: seq<SelectOption>, text: string)
    requires !IsBlank(text)
    requires !InOptions(options, Trim(text))
    ensures var sent := HandleCustomInputBlur(HandleCustomInputChange(s, text)).emitted;
            sent == Some(Trim(text))
            && var back := Sync(s, options, sent.value);
               back.isCustom && back.customInput == Trim(text)
               && HandleCustomInputBlur(back).emitted == sent
  {
    var t := Trim(text);
    TrimEmptyIffBlank(text);
    TrimIdentity(t);
    TrimEmptyIffBlank(t);
  }

  /** Choosing an option and letting the parent take its value leaves custom mode and,
      when its label is not empty and no earlier option has the same value, shows that
      label. */
  lemma ChosenOptionIsShown(s: State, options: seq<SelectOption>, k: nat, placeholder: string, otherLabel: string)
    requires k < |options|
    requires options[k].value != OtherValue && options[k].value != "" && options[k].caption != ""
    requires forall j :: 0 <= j < k ==> options[j].value != options[k].value
    ensures var h := HandleSelectChange(s, options[k].value);
            h.emitted == Some(options[k].value)
            && var back := Sync(h.state, options, options[k].value);
               !back.isCustom
               && TriggerLabel(back, options, options[k].value, placeholder, otherLabel) == options[k].caption
  {
    var r := FindLabel(options, options[k].value);
    assert r.Some?;
    var m :| 0 <= m < |options| && options[m].value == options[k].value
             && r.value == options[m].caption
             && forall j :: 0 <= j < m ==> options[j].value != options[k].value;
    assert m == k;
  }

  /** An option whose value is "other" cannot be chosen: picking it opens the custom
      text instead and reports nothing. */
  lemma OptionValuedOtherIsShadowed(s: State, options: seq<SelectOption>, k: nat)
    requires k < |options| && options[k].value == OtherValue
    ensures HandleSelectChange(s, options[k].value).emitted == None
    ensures HandleSelectChange(s, options[k].value).state.isCustom
  {
  }

  /** Options listed after the first one with the value never change the trigger: a
      later duplicate with another label is not shown, and an empty label on the first
      match shows the value itself even when a later duplicate has a label. */
  lemma LaterOptionsDoNotChangeTrigger(s: State, options: seq<SelectOption>, later: seq<SelectOption>,
                                       value: string, placeholder: string, otherLabel: string)
    requires InOptions(options, value)
    ensures TriggerLabel(s, options + later, value, placeholder, otherLabel)
            == TriggerLabel(s, options, value, placeholder, otherLabel)
  {
    if !s.isCustom && value != "" {
      var found := FindLabel(options, value);
      var k :| 0 <= k < |options| && options[k].value == value
               && found.value == options[k].caption
               && forall j :: 0 <= j < k ==> options[j].value != value;
      assert (options + later)[k] == options[k];
      assert forall j :: 0 <= j < k ==> (options + later)[j] == options[j];
    }
  }
}
