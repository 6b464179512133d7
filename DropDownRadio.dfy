/** A drop-down menu whose items work as radio buttons (`DropDownMenuRadio`
    in DropDownRadio.js): one value is selected, or none and then the
    default counts, and the item holding it is marked. */
module DropDownRadio {
  import opened Wrappers

  /** An item's `_title`: absent, a fixed text, or a function computing the
      text from the item (None hides the item). Only its value is passed. */
  datatype Title<!V> = NoTitle | Text(s: string) | Computed(f: Option<V> -> Option<string>)

  /** A menu item's `_value` (None is `null`) and `_title`. */
  datatype MenuItem<!V> = MenuItem(value: Option<V>, title: Title<V>)

  /** U+25CF BLACK CIRCLE: the item holding the selected value. */
  const SelectedMark := "\U{25CF}&nbsp;"
  /** U+25CB WHITE CIRCLE: the item holding the default value while nothing is selected. */
  const DefaultMark := "\U{25CB}&nbsp;"

  /** JS truthiness of a `_title`: a function is truthy, a text unless empty. */
  predicate TitleTruthy<V>(t: Title<V>) {
    t.Computed? || (t.Text? && t.s != "")
  }

  /** The title before marking: "..." for a falsy title, else the text or
      what the function computes. */
  function ResolveTitle<V>(item: MenuItem<V>): (title: Option<string>)
    ensures !TitleTruthy(item.title) ==> title == Some("...")
    ensures item.title.Text? && item.title.s != "" ==> title == Some(item.title.s)
    ensures item.title.Computed? ==> title == item.title.f(item.value)
  {
    match item.title
    case NoTitle => Some("...")
    case Text(s) => if s == "" then Some("...") else Some(s)
    case Computed(f) => f(item.value)
  }

  /** The mark in front of an item's title: selected when its value is the
      menu's value (two nulls included), default when nothing is selected and
      its value is the default, else none. */
  function Marker<V(==)>(itemValue: Option<V>, value: Option<V>, defaultValue: Option<V>): (mark: string)
    ensures mark == SelectedMark <==> itemValue == value
    ensures mark == DefaultMark <==> itemValue != value && value.None? && itemValue == defaultValue
    ensures mark == "" <==> itemValue != value && !(value.None? && itemValue == defaultValue)
  {
    if itemValue == value then SelectedMark
    else if value.None? && itemValue == defaultValue then DefaultMark
    else ""
  }

  /** What `getValue` answers for a given state. */
  function Effective<V>(value: Option<V>, defaultValue: Option<V>): Option<V> {
    if value.None? then defaultValue else value
  }

  /** An item with a real value is marked exactly when it holds the value
      `getValue` answers. */
  lemma MarkedIffEffective<V>(itemValue: Option<V>, value: Option<V>, defaultValue: Option<V>)
    requires itemValue.Some?
    ensures Marker(itemValue, value, defaultValue) != "" <==> itemValue == Effective(value, defaultValue)
  {
  }

  /** Among items with distinct real values at most one is marked. */
  lemma AtMostOneMarked<V>(items: seq<MenuItem<V>>, value: Option<V>, defaultValue: Option<V>, i: nat, j: nat)
    requires i < |items| && j < |items| && i != j
    requires items[i].value.Some? && items[j].value.Some? && items[i].value != items[j].value
    ensures Marker(items[i].value, value, defaultValue) == "" || Marker(items[j].value, value, defaultValue) == ""
  {
    MarkedIffEffective(items[i].value, value, defaultValue);
    MarkedIffEffective(items[j].value, value, defaultValue);
  }

  /** The menu's own title after an item is chosen: a function title is
      computed, anything else is passed on as it is (None for absent). */
  function ChosenTitle<V>(item: MenuItem<V>): (title: Option<string>)
    ensures item.title.Computed? ==> title == item.title.f(item.value)
    ensures item.title.Text? ==> title == Some(item.title.s)
    ensures item.title.NoTitle? ==> title.None?
  {
    match item.title
    case NoTitle => None
    case Text(s) => Some(s)
    case Computed(f) => f(item.value)
  }

  /** A chosen item whose title is a non-empty text shows the same text in
      the button as, unmarked, in the list. */
  lemma ChosenTitleMatchesItem<V>(item: MenuItem<V>)
    requires item.title.Text? && item.title.s != ""
    ensures ChosenTitle(item) == ResolveTitle(item)
  {
  }

  class DropDownMenuRadio<V(==)> {
    /** `_value`, None is `null`. */
    var value: Option<V>
    /** `_defaultValue`, None is `null`. */
    var defaultValue: Option<V>
    /** The items added with `addMenuItemRadio`, in order. */
    var items: seq<MenuItem<V>>
    /** The menu's own title as last set by an item's action. */
    var shownTitle: Option<string>

    constructor ()
      ensures value == None && defaultValue == None && items == [] && shownTitle == None
    {
      value, defaultValue, items, shownTitle := None, None, [], None;
    }

    /** `getValue`: the selected value, or the default while none is selected. */
    function GetValue(): (v: Option<V>)
      reads this
      ensures value.Some? ==> v == value
      ensures value.None? ==> v == defaultValue
    {
      if value.None? then defaultValue else value
    }

    method SetValue(v: Option<V>)
      modifies this`value
      ensures value == v
    {
      value := v;
    }

    method SetDefaultValue(v: Option<V>)
      modifies this`defaultValue
      ensures defaultValue == v
    {
      defaultValue := v;
    }

    /** `_menuItemTitleCallBack`: a hidden item stays hidden, a shown one
      gets its mark in front. */
    function MenuItemTitle(item: MenuItem<V>): (title: Option<string>)
      reads this
      ensures title.None? <==> ResolveTitle(item).None?
      ensures title.Some? ==> title.value == Marker(item.value, value, defaultValue) + ResolveTitle(item).value
    {
      var t := ResolveTitle(item);
      if t.None? then None else Some(Marker(item.value, value, defaultValue) + t.value)
    }

    /** `_menuItemActionCallBack`: the item's value becomes the value and the
      menu shows the item's title. */
    method ChooseItem(item: MenuItem<V>)
      modifies this`value, this`shownTitle
      ensures value == item.value && shownTitle == ChosenTitle(item)
      ensures item.value.Some? ==> GetValue() == item.value && Marker(item.value, value, defaultValue) == SelectedMark
    {
      value := item.value;
      match item.title {
        case NoTitle => shownTitle := None;
        case Text(s) => shownTitle := Some(s);
        case Computed(f) => shownTitle := f(item.value);
      }
    }

    /** `addMenuItemRadio`: the new item goes last and is returned. */
    method AddMenuItemRadio(v: Option<V>, t: Title<V>) returns (item: MenuItem<V>)
      modifies this`items
      ensures item == MenuItem(v, t) && items == old(items) + [item]
    {
      item := MenuItem(v, t);
      items := items + [item];
    }
  }

  /** The title starts with one of the two marks. */
  predicate StartsWithMark(t: string) {
    (|t| >= |SelectedMark| && t[..|SelectedMark|] == SelectedMark) ||
    (|t| >= |DefaultMark| && t[..|DefaultMark|] == DefaultMark)
  }

  /** Unmarked item titles are plain, so a mark in front can only come from
      the marker. */
  lemma MarkerHasMark<V>(itemValue: Option<V>, value: Option<V>, defaultValue: Option<V>, rest: string)
    requires itemValue.Some?
    requires !StartsWithMark(rest)
    ensures StartsWithMark(Marker(itemValue, value, defaultValue) + rest) <==> itemValue == Effective(value, defaultValue)
  {
    var m := Marker(itemValue, value, defaultValue);
    if m != "" {
      assert (m + rest)[..|m|] == m;
    } else {
      assert m + rest == rest;
    }
  }

  /** Reading the menu: a shown item with a real value and a plain title
      carries a mark exactly when it holds the value `getValue` answers. */
  lemma ItemMarkedIffSelected<V>(menu: DropDownMenuRadio<V>, item: MenuItem<V>)
    requires item.value.Some? && ResolveTitle(item).Some? && !StartsWithMark(ResolveTitle(item).value)
    ensures menu.MenuItemTitle(item).Some?
    ensures StartsWithMark(menu.MenuItemTitle(item).value) <==> item.value == menu.GetValue()
  {
    MarkerHasMark(item.value, menu.value, menu.defaultValue, ResolveTitle(item).value);
  }
}
