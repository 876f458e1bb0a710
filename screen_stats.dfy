/**
 * The list management of `ScreenStats`: stat items are appended with ": "
 * added to their name, looked up by name with every ": " removed from the
 * stored name, and have their text, colour or selection changed in place.
 * Loading fonts and drawing are not part of the model.
 */
module Stats {
  import opened Wrappers
  import opened Util

  newtype Byte = x: int | 0 <= x < 256

  /** The engine's RGBA `Color`. */
  datatype Color = Color(r: Byte, g: Byte, b: Byte, a: Byte)

  /** `StatText`: one line of the stats display. */
  datatype StatText = StatText(forecolor: Color, selectedColor: Color, name: string, text: string,
                               position: Vector2, selected: bool)

  // ------------------------------------------------------------ name matching

  /** The two-character separator `AddStatText` puts after every name. */
  const Separator: string := ": "

  /** `s` holds the separator somewhere. */
  predicate ContainsSeparator(s: string)
  {
    exists i :: 0 <= i < |s| - 1 && s[i] == ':' && s[i + 1] == ' '
  }

  /** `s.Replace(": ", "")`: every separator removed, scanning from the left without overlaps. */
  function RemoveSeparators(s: string): (r: string)
    ensures |r| <= |s|
  {
    if |s| >= 2 && s[0] == ':' && s[1] == ' ' then RemoveSeparators(s[2..])
    else if s == [] then []
    else [s[0]] + RemoveSeparators(s[1..])
  }

  /** A stored item answers to `name` when its name without separators is `name`. */
  predicate Matches(item: StatText, name: string)
  {
    RemoveSeparators(item.name) == name
  }

  /** A name without separators is left as it is. */
  lemma {:induction false} RemoveSeparatorsKeepsPlainName(s: string)
    requires !ContainsSeparator(s)
    ensures RemoveSeparators(s) == s
  {
    if s != [] {
      assert !(|s| >= 2 && s[0] == ':' && s[1] == ' ');
      assert !ContainsSeparator(s[1..]) by {
        forall i | 0 <= i < |s[1..]| - 1 ensures !(s[1..][i] == ':' && s[1..][i + 1] == ' ') {
          assert s[1..][i] == s[i + 1] && s[1..][i + 1] == s[i + 2];
        }
      }
      RemoveSeparatorsKeepsPlainName(s[1..]);
    }
  }

  /** The name `AddStatText` stores maps back to the name it was given, when that name holds no separator. */
  lemma {:induction false} StoredNameMatches(name: string)
    requires !ContainsSeparator(name)
    ensures RemoveSeparators(name + Separator) == name
  {
    if name == [] {
      assert name + Separator == Separator;
      assert Separator[2..] == [];
    } else {
      var s := name + Separator;
      assert s[0] == name[0];
      if |name| >= 2 {
        assert s[1] == name[1];
      } else {
        assert s[1] == ':';
      }
      assert s[1..] == name[1..] + Separator;
      assert !ContainsSeparator(name[1..]) by {
        forall i | 0 <= i < |name[1..]| - 1 ensures !(name[1..][i] == ':' && name[1..][i + 1] == ' ') {
          assert name[1..][i] == name[i + 1] && name[1..][i + 1] == name[i + 2];
        }
      }
      StoredNameMatches(name[1..]);
    }
  }

  /** A trailing separator is removed without trace. */
  lemma {:induction false} RemoveSeparatorsDropsTrailing(s: string)
    ensures RemoveSeparators(s + Separator) == RemoveSeparators(s)
  {
    var t := s + Separator;
    if s == [] {
      assert t == Separator && Separator[2..] == [];
    } else if |s| == 1 {
      assert t[1] == ':' && t[2] == ' ';
      assert t[1..] == Separator && Separator[2..] == [];
      assert s[1..] == [];
    } else if s[0] == ':' && s[1] == ' ' {
      assert t[2..] == s[2..] + Separator;
      RemoveSeparatorsDropsTrailing(s[2..]);
    } else {
      assert t[0] == s[0] && t[1] == s[1];
      assert t[1..] == s[1..] + Separator;
      RemoveSeparatorsDropsTrailing(s[1..]);
    }
  }

  /** Removing separators from a name that holds one shortens it by at least two characters. */
  lemma {:induction false} RemoveSeparatorsShortens(s: string)
    requires ContainsSeparator(s)
    ensures |RemoveSeparators(s)| <= |s| - 2
  {
    var i :| 0 <= i < |s| - 1 && s[i] == ':' && s[i + 1] == ' ';
    if !(s[0] == ':' && s[1] == ' ') {
      assert i > 0;
      assert s[1..][i - 1] == ':' && s[1..][i] == ' ';
      RemoveSeparatorsShortens(s[1..]);
    }
  }

  /** A name holding the separator is stored so that it never answers to itself. */
  lemma NameWithSeparatorIsLost(name: string)
    requires ContainsSeparator(name)
    ensures RemoveSeparators(name + Separator) != name
  {
    RemoveSeparatorsDropsTrailing(name);
    RemoveSeparatorsShortens(name);
  }

  /** The position of the first item answering to `name`; None where `GetStat` makes a throw-away item. */
  function FirstMatch(items: seq<StatText>, name: string): (r: Option<nat>)
    ensures r.None? <==> forall i :: 0 <= i < |items| ==> !Matches(items[i], name)
    ensures r.Some? ==> r.value < |items| && Matches(items[r.value], name)
    ensures r.Some? ==> forall i :: 0 <= i < r.value ==> !Matches(items[i], name)
  {
    if items == [] then None
    else if Matches(items[0], name) then Some(0)
    else match FirstMatch(items[1..], name)
      case None => None
      case Some(i) => Some(i + 1)
  }

  /** The item `AddStatText` stores for `text`. */
  function Stored(text: StatText): StatText
  {
    text.(name := text.name + Separator)
  }

  /** Appending an item changes a lookup only when nothing before it answered. */
  lemma {:induction false} FirstMatchAppend(items: seq<StatText>, item: StatText, name: string)
    ensures FirstMatch(items + [item], name)
         == if FirstMatch(items, name).Some? then FirstMatch(items, name)
            else if Matches(item, name) then Some(|items|)
            else None
  {
    if items != [] {
      assert (items + [item])[0] == items[0];
      assert (items + [item])[1..] == items[1..] + [item];
      FirstMatchAppend(items[1..], item, name);
    } else {
      assert items + [item] == [item];
    }
  }

  /**
   * Round trip: after adding an item whose name holds no separator, a lookup by
   * that very name finds it, at the end of the list unless an earlier item
   * already answers to the name.
   */
  lemma AddedStatIsFound(items: seq<StatText>, text: StatText)
    requires !ContainsSeparator(text.name)
    ensures FirstMatch(items + [Stored(text)], text.name)
         == if FirstMatch(items, text.name).Some? then FirstMatch(items, text.name) else Some(|items|)
  {
    StoredNameMatches(text.name);
    FirstMatchAppend(items, Stored(text), text.name);
  }

  /** After adding an item whose name holds a separator, a lookup by that name still sees only the earlier items. */
  lemma AddedStatWithSeparatorIsNotFound(items: seq<StatText>, text: StatText)
    requires ContainsSeparator(text.name)
    ensures FirstMatch(items + [Stored(text)], text.name) == FirstMatch(items, text.name)
  {
    NameWithSeparatorIsLost(text.name);
    FirstMatchAppend(items, Stored(text), text.name);
  }

  /** Two lists hold the items in the same order, under the same names and at the same positions. */
  ghost predicate SameLayout(a: seq<StatText>, b: seq<StatText>)
  {
    |a| == |b| && forall i :: 0 <= i < |a| ==> a[i].name == b[i].name && a[i].position == b[i].position
  }

  // ---------------------------------------------------------------- the list

  class ScreenStats {
    /** `_statItems`. */
    var items: seq<StatText>

    constructor ()
      ensures items == []
    {
      items := [];
    }

    /**
     * `UpdateStat`: sets the text of the first item answering to `name` and stops;
     * with no such item nothing changes.
     */
    method UpdateStat(name: string, text: string)
      modifies this`items
      ensures SameLayout(old(items), items)
      ensures match FirstMatch(old(items), name)
        case None => items == old(items)
        case Some(k) => items == old(items)[k := old(items)[k].(text := text)]
    {
      for i := 0 to |items|
        invariant items == old(items)
        invariant forall j :: 0 <= j < i ==> !Matches(items[j], name)
      {
        if RemoveSeparators(items[i].name) == name {
          items := items[i := items[i].(text := text)];
          return;
        }
      }
    }

    /** `AddStatText`: appends the item with ": " added to its name. */
    method AddStatText(text: StatText)
      modifies this`items
      ensures items == old(items) + [Stored(text)]
    {
      var stored := text.(name := text.name + Separator);
      items := items + [stored];
    }

    /** `ChangeStatColor`: sets the fore colour of the first item answering to `name`, if any. */
    method ChangeStatColor(name: string, color: Color)
      modifies this`items
      ensures SameLayout(old(items), items)
      ensures match FirstMatch(old(items), name)
        case None => items == old(items)
        case Some(k) => items == old(items)[k := old(items)[k].(forecolor := color)]
    {
      var statText := GetStat(name);
      if statText.Some? {
        var k := statText.value;
        items := items[k := items[k].(forecolor := color)];
      }
    }

    /** `SelectedStat`: selects the first item answering to `name`, if any. */
    method SelectedStat(name: string)
      modifies this`items
      ensures SameLayout(old(items), items)
      ensures match FirstMatch(old(items), name)
        case None => items == old(items)
        case Some(k) => items == old(items)[k := old(items)[k].(selected := true)]
    {
      var foundStat := GetStat(name);
      if foundStat.Some? {
        var k := foundStat.value;
        items := items[k := items[k].(selected := true)];
      }
    }

    /** `UnselectAll`: clears `Selected` on every item and touches nothing else. */
    method UnselectAll()
      modifies this`items
      ensures SameLayout(old(items), items)
      ensures forall i :: 0 <= i < |items| ==> items[i] == old(items)[i].(selected := false)
      ensures forall i :: 0 <= i < |items| ==> !items[i].selected
    {
      for i := 0 to |items|
        invariant |items| == |old(items)|
        invariant forall j :: 0 <= j < i ==> items[j] == old(items)[j].(selected := false)
        invariant forall j :: i <= j < |items| ==> items[j] == old(items)[j]
      {
        items := items[i := items[i].(selected := false)];
      }
    }

    /**
     * `GetStat`: the stored item that answers first to `name`, given as its
     * position; None stands for the fresh `StatText` the source returns instead,
     * whose later changes reach no stored item.
     */
    method GetStat(name: string) returns (found: Option<nat>)
      ensures found == FirstMatch(items, name)
    {
      for i := 0 to |items|
        invariant forall j :: 0 <= j < i ==> !Matches(items[j], name)
      {
        if RemoveSeparators(items[i].name) == name {
          return Some(i);
        }
      }
      return None;
    }
  }
}
