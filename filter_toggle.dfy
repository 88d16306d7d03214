/** The All/Liked toggle: which option is selected, and what a click or key press does. */
module FilterToggleComponent {
  import opened Base
  import opened Models

  /** `options.find(opt => opt.selected)`: the first option flagged as selected, if any. */
  function InitialSelection(options: seq<FilterToggle>): (r: Option<FilterToggle>)
    ensures r.None? <==> forall k :: 0 <= k < |options| ==> !options[k].selected
    ensures r.Some? ==> exists k :: 0 <= k < |options| && options[k] == r.value && r.value.selected
                                    && forall j :: 0 <= j < k ==> !options[j].selected
  {
    match FindFirst(options, (o: FilterToggle) => o.selected)
    case Some(k) => Some(options[k])
    case None => None
  }

  /** `options.find(opt => opt.name === name)`: the first option with that name, if any. */
  function OptionNamed(options: seq<FilterToggle>, name: string): (r: Option<FilterToggle>)
    ensures r.None? <==> forall k :: 0 <= k < |options| ==> options[k].name != name
    ensures r.Some? ==> r.value.name == name
                        && exists k :: 0 <= k < |options| && options[k] == r.value
                                       && forall j :: 0 <= j < k ==> options[j].name != name
  {
    match FindFirst(options, (o: FilterToggle) => o.name == name)
    case Some(k) => Some(options[k])
    case None => None
  }

  /** With the application's options, All starts selected and each name finds its own option. */
  lemma FilterOptionsSelection()
    ensures InitialSelection(FilterOptions) == Some(FilterOptions[0])
    ensures FilterOptions[0].name == "All" && FilterOptions[1].name == "Liked"
    ensures OptionNamed(FilterOptions, "Liked") == Some(FilterOptions[1])
  {
    assert FilterOptions[0].selected;
    assert FilterOptions[0].name[0] != "Liked"[0];
  }

  /** The user input that selects an option. */
  datatype UiEvent = Mouse | Keyboard(key: string)

  class Toggle {
    var options: seq<FilterToggle>
    /** `_selected`, linked to the options. */
    var selected: Option<FilterToggle>

    constructor (options: seq<FilterToggle>)
      ensures this.options == options && selected == InitialSelection(options)
    {
      this.options := options;
      selected := InitialSelection(options);
    }

    /** A new options input resets the selection to its initially selected option. */
    method SetOptions(newOptions: seq<FilterToggle>)
      modifies this
      ensures options == newOptions && selected == InitialSelection(options)
    {
      options := newOptions;
      selected := InitialSelection(options);
    }

    /**
     * `onSelect`: a key other than Enter, or a name that is no option's, changes nothing and
     * emits nothing; otherwise the first option with that name is selected and emitted.
     */
    method OnSelect(name: string, event: UiEvent) returns (emitted: Option<FilterToggle>)
      modifies this`selected
      ensures event.Keyboard? && event.key != "Enter" ==> emitted == None && selected == old(selected)
      ensures !(event.Keyboard? && event.key != "Enter") ==>
        emitted == OptionNamed(options, name)
        && selected == (if emitted.Some? then emitted else old(selected))
    {
      if event.Keyboard? && event.key != "Enter" {
        return None;
      }
      var opt := OptionNamed(options, name);
      if opt.None? {
        return None;
      }
      selected := opt;
      emitted := opt;
    }
  }
}
