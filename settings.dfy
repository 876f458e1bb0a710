/**
 * `SettingsManager`: named groups of live-tunable settings, a current-group
 * index cycled by a "next" and a "previous" key, and edge-triggered change
 * actions for the settings of the current group.
 *
 * Keyboard polling becomes a parameter (the set of keys down this frame). The
 * change actions and the event subscribers are closures the model cannot see:
 * each call of a change action is recorded in the ghost log `invocations`, and
 * each raised `OnNextSetting`/`OnPreviousSetting` event in the ghost log `events`.
 * Of the subscribers the model keeps only whether each event has one, which
 * decides whether raising it looks the group names up at all.
 * The C# `Dictionary` is an insertion-ordered sequence of groups, which is how
 * the add-only dictionary enumerates.
 */
module Settings {
  import opened Wrappers

  /** A keyboard key, standing for the engine's `Keys` enumeration. */
  type Key = int

  /** A keyboard snapshot: the keys that are down. */
  type KeySnapshot = set<Key>

  /** `Setting`: a name, the key that triggers it and the amount handed to its change action. */
  datatype Setting = Setting(name: string, invokeActionKey: Key, changeAmount: real)

  /** One entry of the group dictionary: the group's name and its settings array. */
  datatype SettingGroup = SettingGroup(name: string, settings: seq<Setting>)

  /** `ChangeSettingEventArgs`: the group names before and after a cycle. */
  datatype ChangeSettingEventArgs = ChangeSettingEventArgs(previousSettingGroupName: string,
                                                           currentSettingGroupName: string)

  /** A raised event, tagged with the event it was raised on. */
  datatype RaisedEvent =
    | OnNextSetting(args: ChangeSettingEventArgs)
    | OnPreviousSetting(args: ChangeSettingEventArgs)

  /** One call `ChangeAction.Invoke(ChangeAmount)` of the setting with this name. */
  datatype Invocation = Invocation(settingName: string, amount: real)

  // ------------------------------------------------------------ edge detection

  /** A key triggers when it is down now and was up in the previous snapshot. */
  predicate RisingEdge(current: KeySnapshot, previous: KeySnapshot, key: Key)
  {
    key in current && key !in previous
  }

  /**
   * How many times `key` triggers over a run of frames, when each frame's
   * snapshot becomes the previous snapshot of the next frame.
   */
  function Triggers(previous: KeySnapshot, frames: seq<KeySnapshot>, key: Key): nat
    decreases |frames|
  {
    if frames == [] then 0
    else (if RisingEdge(frames[0], previous, key) then 1 else 0) + Triggers(frames[0], frames[1..], key)
  }

  /** The snapshot that is "previous" once the frames have run. */
  function LastSnapshot(previous: KeySnapshot, frames: seq<KeySnapshot>): KeySnapshot
  {
    if frames == [] then previous else frames[|frames| - 1]
  }

  /** A key already down never triggers while it stays down. */
  lemma {:induction false} HeldKeyStaysQuiet(previous: KeySnapshot, frames: seq<KeySnapshot>, key: Key)
    requires key in previous
    requires forall i :: 0 <= i < |frames| ==> key in frames[i]
    ensures Triggers(previous, frames, key) == 0
    decreases |frames|
  {
    if frames != [] {
      HeldKeyStaysQuiet(frames[0], frames[1..], key);
    }
  }

  /** A key pressed and then held for any number of frames triggers exactly once. */
  lemma HeldKeyTriggersOnce(previous: KeySnapshot, frames: seq<KeySnapshot>, key: Key)
    requires key !in previous
    requires |frames| > 0
    requires forall i :: 0 <= i < |frames| ==> key in frames[i]
    ensures Triggers(previous, frames, key) == 1
  {
    HeldKeyStaysQuiet(frames[0], frames[1..], key);
  }

  /** Trigger counts add up over consecutive runs of frames. */
  lemma {:induction false} TriggersAppend(previous: KeySnapshot, a: seq<KeySnapshot>, b: seq<KeySnapshot>, key: Key)
    ensures Triggers(previous, a + b, key)
         == Triggers(previous, a, key) + Triggers(LastSnapshot(previous, a), b, key)
    decreases |a|
  {
    if a != [] {
      assert (a + b)[0] == a[0];
      assert (a + b)[1..] == a[1..] + b;
      TriggersAppend(a[0], a[1..], b, key);
      assert LastSnapshot(a[0], a[1..]) == LastSnapshot(previous, a);
    } else {
      assert a + b == b;
    }
  }

  /** Holding a key, releasing it for a frame and pressing it again triggers twice. */
  lemma ReleaseAndRepressTriggersTwice(previous: KeySnapshot, held: seq<KeySnapshot>, released: KeySnapshot,
                                       heldAgain: seq<KeySnapshot>, key: Key)
    requires key !in previous && key !in released
    requires |held| > 0 && |heldAgain| > 0
    requires forall i :: 0 <= i < |held| ==> key in held[i]
    requires forall i :: 0 <= i < |heldAgain| ==> key in heldAgain[i]
    ensures Triggers(previous, held + [released] + heldAgain, key) == 2
  {
    TriggersAppend(previous, held + [released], heldAgain, key);
    TriggersAppend(previous, held, [released], key);
    HeldKeyTriggersOnce(previous, held, key);
    HeldKeyTriggersOnce(released, heldAgain, key);
  }

  // -------------------------------------------------------------- cycling

  /** `NextSetting`'s index rule: one forward, wrapping from the last group to the first. */
  function NextIndex(index: int, count: int): (r: int)
    ensures 0 <= index < count ==> 0 <= r < count
    ensures 0 <= index < count ==> r == index + 1 || (index == count - 1 && r == 0)
  {
    if index < count - 1 then index + 1 else 0
  }

  /** `PreviousSetting`'s index rule: one back, wrapping from the first group (or below) to the last. */
  function PreviousIndex(index: int, count: int): (r: int)
    ensures 0 <= index < count ==> 0 <= r < count
    ensures 0 <= index < count ==> r == index - 1 || (index == 0 && r == count - 1)
  {
    if index <= 0 then count - 1 else index - 1
  }

  /** Next then previous is the identity on valid indices. */
  lemma NextThenPrevious(index: int, count: int)
    requires 0 <= index < count
    ensures PreviousIndex(NextIndex(index, count), count) == index
  {
  }

  /** Previous then next is the identity on valid indices. */
  lemma PreviousThenNext(index: int, count: int)
    requires 0 <= index < count
    ensures NextIndex(PreviousIndex(index, count), count) == index
  {
  }

  datatype Direction = Forward | Backward

  function Move(direction: Direction, index: int, count: int): int
  {
    if direction == Forward then NextIndex(index, count) else PreviousIndex(index, count)
  }

  /** The index after `steps` moves in one direction. */
  function Moves(direction: Direction, index: int, count: int, steps: nat): int
  {
    if steps == 0 then index else Move(direction, Moves(direction, index, count, steps - 1), count)
  }

  lemma {:induction false} MovesCompose(direction: Direction, index: int, count: int, a: nat, b: nat)
    ensures Moves(direction, index, count, a + b) == Moves(direction, Moves(direction, index, count, a), count, b)
  {
    if b > 0 {
      MovesCompose(direction, index, count, a, b - 1);
    }
  }

  /** Away from the wrap-around point, k forward moves add k. */
  lemma {:induction false} ForwardMovesAdd(index: int, count: int, steps: nat)
    requires 0 <= index && index + steps < count
    ensures Moves(Forward, index, count, steps) == index + steps
  {
    if steps > 0 {
      ForwardMovesAdd(index, count, steps - 1);
    }
  }

  /** Away from the wrap-around point, k backward moves subtract k. */
  lemma {:induction false} BackwardMovesSubtract(index: int, count: int, steps: nat)
    requires steps <= index < count
    ensures Moves(Backward, index, count, steps) == index - steps
  {
    if steps > 0 {
      BackwardMovesSubtract(index, count, steps - 1);
    }
  }

  /** Cycling has order `count`: that many moves in either direction return to the start. */
  lemma CycleHasOrderCount(direction: Direction, index: int, count: int)
    requires 0 <= index < count
    ensures Moves(direction, index, count, count) == index
  {
    if direction == Forward {
      // count - 1 - index steps to the last group, one to wrap to 0, index more
      ForwardMovesAdd(index, count, count - 1 - index);
      MovesCompose(Forward, index, count, count - 1 - index, 1);
      MovesCompose(Forward, index, count, count - index, index);
      ForwardMovesAdd(0, count, index);
    } else {
      BackwardMovesSubtract(index, count, index);
      MovesCompose(Backward, index, count, index, 1);
      MovesCompose(Backward, index, count, index + 1, count - 1 - index);
      BackwardMovesSubtract(count - 1, count, count - 1 - index);
    }
  }

  /** The index after one frame's edge checks: next first, then previous. */
  function CycledIndex(index: int, count: int, nextEdge: bool, previousEdge: bool): int
  {
    var afterNext := if nextEdge then NextIndex(index, count) else index;
    if previousEdge then PreviousIndex(afterNext, count) else afterNext
  }

  /**
   * The events one frame raises: one per cycling key with a rising edge whose
   * event has a subscriber, next first. Raising an event reads the group names
   * at the old and the new index, so those must exist; with no subscriber the
   * names are never read.
   */
  function CycleEvents(groups: seq<SettingGroup>, index: int, nextEdge: bool, previousEdge: bool,
                       nextSubscribed: bool, previousSubscribed: bool): seq<RaisedEvent>
    requires nextEdge && nextSubscribed ==> 0 <= index < |groups|
    requires previousEdge && previousSubscribed
             ==> 0 <= (if nextEdge then NextIndex(index, |groups|) else index) < |groups|
  {
    var afterNext := if nextEdge then NextIndex(index, |groups|) else index;
    var afterPrevious := if previousEdge then PreviousIndex(afterNext, |groups|) else afterNext;
    (if nextEdge && nextSubscribed
     then [OnNextSetting(ChangeSettingEventArgs(groups[index].name, groups[afterNext].name))] else [])
    + (if previousEdge && previousSubscribed
       then [OnPreviousSetting(ChangeSettingEventArgs(groups[afterNext].name, groups[afterPrevious].name))] else [])
  }

  /**
   * Pressing both cycling keys in one frame leaves the index where it was and,
   * with both events subscribed, raises two: forward to the next group, then back.
   */
  lemma BothCycleKeysCancel(groups: seq<SettingGroup>, index: int)
    requires 0 <= index < |groups|
    ensures CycledIndex(index, |groups|, true, true) == index
    ensures var j := NextIndex(index, |groups|);
            (CycleEvents(groups, index, true, true, true, true)
             == [OnNextSetting(ChangeSettingEventArgs(groups[index].name, groups[j].name)),
                 OnPreviousSetting(ChangeSettingEventArgs(groups[j].name, groups[index].name))])
  {
    NextThenPrevious(index, |groups|);
  }

  /**
   * A subscribed event names the groups at the old and new index, in insertion
   * order; an unsubscribed event and a frame without edges raise nothing.
   */
  lemma CycleEventNamesGroups(groups: seq<SettingGroup>, index: int)
    requires 0 <= index < |groups|
    ensures CycleEvents(groups, index, true, false, true, true)
         == [OnNextSetting(ChangeSettingEventArgs(groups[index].name, groups[CycledIndex(index, |groups|, true, false)].name))]
    ensures CycleEvents(groups, index, false, true, true, true)
         == [OnPreviousSetting(ChangeSettingEventArgs(groups[index].name, groups[CycledIndex(index, |groups|, false, true)].name))]
    ensures CycleEvents(groups, index, true, true, false, false) == []
    ensures CycleEvents(groups, index, false, false, true, true) == []
  {
  }

  /** A frame's events are those of its next-key check followed by those of its previous-key check. */
  lemma CycleEventsSplit(groups: seq<SettingGroup>, index: int, nextEdge: bool, previousEdge: bool,
                         nextSubscribed: bool, previousSubscribed: bool)
    requires nextEdge && nextSubscribed ==> 0 <= index < |groups|
    requires previousEdge && previousSubscribed
             ==> 0 <= (if nextEdge then NextIndex(index, |groups|) else index) < |groups|
    ensures var afterNext := if nextEdge then NextIndex(index, |groups|) else index;
            (CycleEvents(groups, index, nextEdge, previousEdge, nextSubscribed, previousSubscribed)
             == CycleEvents(groups, index, nextEdge, false, nextSubscribed, previousSubscribed)
                + CycleEvents(groups, afterNext, false, previousEdge, false, previousSubscribed))
  {
  }

  /**
   * Whether the cycling-key checks of a frame throw: raising a subscribed event
   * looks up the group names at the old and the new index.
   */
  predicate CycleThrows(index: int, count: int, nextEdge: bool, previousEdge: bool,
                        nextSubscribed: bool, previousSubscribed: bool)
  {
    var afterNext := if nextEdge then NextIndex(index, count) else index;
    || (nextEdge && nextSubscribed && !(0 <= index < count))
    || (previousEdge && previousSubscribed && !(0 <= afterNext < count))
  }

  /**
   * Whether one `Update` frame throws: in the cycling-key checks, or after them,
   * when processing the current group looks up the name at the index while there
   * are groups.
   */
  predicate FrameThrows(index: int, count: int, nextEdge: bool, previousEdge: bool,
                        nextSubscribed: bool, previousSubscribed: bool)
  {
    || CycleThrows(index, count, nextEdge, previousEdge, nextSubscribed, previousSubscribed)
    || (0 < count && !(0 <= CycledIndex(index, count, nextEdge, previousEdge) < count))
  }

  /** From an index that names a group, no frame throws, and the index keeps naming one. */
  lemma HealthyFrameNeverThrows(index: int, count: int, nextEdge: bool, previousEdge: bool,
                                nextSubscribed: bool, previousSubscribed: bool)
    requires 0 <= index < count
    ensures !FrameThrows(index, count, nextEdge, previousEdge, nextSubscribed, previousSubscribed)
    ensures 0 <= CycledIndex(index, count, nextEdge, previousEdge) < count
  {
  }

  /**
   * With no groups, a frame throws exactly when a cycling key rises and its event
   * has a subscriber; without one the index just moves (to -1 on the previous key).
   */
  lemma ThrowsWithoutGroups(index: int, nextEdge: bool, previousEdge: bool,
                            nextSubscribed: bool, previousSubscribed: bool)
    ensures FrameThrows(index, 0, nextEdge, previousEdge, nextSubscribed, previousSubscribed)
        <==> (nextEdge && nextSubscribed) || (previousEdge && previousSubscribed)
    requires -1 <= index <= 0
    ensures previousEdge ==> CycledIndex(index, 0, nextEdge, previousEdge) == -1
  {
  }

  /**
   * Index -1 with groups present: a frame with no cycling edge throws; a rising
   * cycling key moves the index back to a group, and that frame throws only when
   * the event it raises has a subscriber.
   */
  lemma StuckIndexRecovers(count: int, nextEdge: bool, previousEdge: bool,
                           nextSubscribed: bool, previousSubscribed: bool)
    requires count > 0
    ensures FrameThrows(-1, count, nextEdge, previousEdge, nextSubscribed, previousSubscribed)
        <==> (if nextEdge then nextSubscribed else if previousEdge then previousSubscribed else true)
    ensures nextEdge || previousEdge ==> 0 <= CycledIndex(-1, count, nextEdge, previousEdge) < count
  {
  }

  // ------------------------------------------------------- change actions

  /**
   * The change-action calls one pass over `settings` makes, in array order: at
   * most one per setting, and none when no key has gone down since the last frame.
   */
  function Fired(settings: seq<Setting>, current: KeySnapshot, previous: KeySnapshot): (r: seq<Invocation>)
    ensures |r| <= |settings|
    ensures current <= previous ==> r == []
  {
    if settings == [] then []
    else
      var last := settings[|settings| - 1];
      Fired(settings[..|settings| - 1], current, previous)
      + (if RisingEdge(current, previous, last.invokeActionKey) then [Invocation(last.name, last.changeAmount)] else [])
  }

  /** Fired preserves order: the calls for a split array are the calls for each part, concatenated. */
  lemma {:induction false} FiredSplits(a: seq<Setting>, b: seq<Setting>, current: KeySnapshot, previous: KeySnapshot)
    ensures Fired(a + b, current, previous) == Fired(a, current, previous) + Fired(b, current, previous)
  {
    if b == [] {
      assert a + b == a;
    } else {
      var b' := b[..|b| - 1];
      assert (a + b)[..|a + b| - 1] == a + b';
      assert (a + b)[|a + b| - 1] == b[|b| - 1];
      FiredSplits(a, b', current, previous);
    }
  }

  /**
   * A call is made for a setting exactly when that setting's key has a rising
   * edge, and the call carries the setting's own name and `ChangeAmount`.
   */
  lemma {:induction false} FiredExactly(settings: seq<Setting>, current: KeySnapshot, previous: KeySnapshot,
                                        call: Invocation)
    ensures call in Fired(settings, current, previous)
        <==> exists i :: 0 <= i < |settings| && RisingEdge(current, previous, settings[i].invokeActionKey)
                                             && call == Invocation(settings[i].name, settings[i].changeAmount)
  {
    if settings != [] {
      var init := settings[..|settings| - 1];
      FiredExactly(init, current, previous, call);
      if call in Fired(init, current, previous) {
        var i :| 0 <= i < |init| && RisingEdge(current, previous, init[i].invokeActionKey)
                                 && call == Invocation(init[i].name, init[i].changeAmount);
        assert settings[i] == init[i];
      }
      if exists i :: 0 <= i < |settings| && RisingEdge(current, previous, settings[i].invokeActionKey)
                                         && call == Invocation(settings[i].name, settings[i].changeAmount) {
        var i :| 0 <= i < |settings| && RisingEdge(current, previous, settings[i].invokeActionKey)
                                     && call == Invocation(settings[i].name, settings[i].changeAmount);
        if i < |init| {
          assert init[i] == settings[i];
        }
      }
    }
  }

  /** With no rising edge among the settings' keys nothing is called; with all rising, each is called once, in order. */
  lemma {:induction false} FiredAllOrNone(settings: seq<Setting>, current: KeySnapshot, previous: KeySnapshot)
    ensures (forall i :: 0 <= i < |settings| ==> !RisingEdge(current, previous, settings[i].invokeActionKey))
            ==> Fired(settings, current, previous) == []
    ensures (forall i :: 0 <= i < |settings| ==> RisingEdge(current, previous, settings[i].invokeActionKey))
            ==> (Fired(settings, current, previous)
                 == seq(|settings|, i requires 0 <= i < |settings| => Invocation(settings[i].name, settings[i].changeAmount)))
  {
    if settings != [] {
      var init := settings[..|settings| - 1];
      FiredAllOrNone(init, current, previous);
    }
  }

  // ------------------------------------------------------------- lookup

  ghost predicate DistinctNames(groups: seq<SettingGroup>)
  {
    forall i, j :: 0 <= i < j < |groups| ==> groups[i].name != groups[j].name
  }

  /** The position of the group with this name (`Keys.Contains` plus the indexer), the first one if several. */
  function FindGroup(groups: seq<SettingGroup>, name: string): (r: Option<nat>)
    ensures r.None? <==> forall i :: 0 <= i < |groups| ==> groups[i].name != name
    ensures r.Some? ==> r.value < |groups| && groups[r.value].name == name
    ensures r.Some? ==> forall i :: 0 <= i < r.value ==> groups[i].name != name
  {
    if groups == [] then None
    else if groups[0].name == name then Some(0)
    else match FindGroup(groups[1..], name)
      case None => None
      case Some(i) => Some(i + 1)
  }

  function Names(groups: seq<SettingGroup>): (r: seq<string>)
    ensures |r| == |groups|
    ensures forall i :: 0 <= i < |groups| ==> r[i] == groups[i].name
  {
    seq(|groups|, i requires 0 <= i < |groups| => groups[i].name)
  }

  // ------------------------------------------------------------ the manager

  class SettingsManager {
    /** `_settingGroups`, in insertion order. */
    var groups: seq<SettingGroup>
    /** `_currentKeyboardState`. */
    var currentKeys: KeySnapshot
    /** `_previousKeyboardState`. */
    var previousKeys: KeySnapshot
    /** `_currentSettingKeyIndex`. */
    var index: int
    const nextSettingKey: Key
    const previousSettingKey: Key
    /** `OnNextSetting` has at least one subscriber. */
    var nextSubscribed: bool
    /** `OnPreviousSetting` has at least one subscriber. */
    var previousSubscribed: bool

    /** Every event raised so far, in order. */
    ghost var events: seq<RaisedEvent>
    /** Every change-action call made so far, in order. */
    ghost var invocations: seq<Invocation>

    /**
     * Group names are unique (the dictionary's keys). The index is in range, or
     * is what a cycle with no groups leaves behind: 0 after `NextSetting`, -1
     * after `PreviousSetting` (-1 survives later `AddSettingGroup` calls).
     */
    ghost predicate Valid()
      reads this
    {
      DistinctNames(groups) && -1 <= index && (index < |groups| || index == 0)
    }

    /** The index names an existing group. */
    predicate Healthy()
      reads this
    {
      0 <= index < |groups|
    }

    constructor (nextSettingKey: Key, previousSettingKey: Key)
      ensures Valid()
      ensures this.nextSettingKey == nextSettingKey && this.previousSettingKey == previousSettingKey
      ensures groups == [] && index == 0
      ensures currentKeys == {} && previousKeys == {}
      ensures !nextSubscribed && !previousSubscribed
      ensures events == [] && invocations == []
    {
      this.nextSettingKey := nextSettingKey;
      this.previousSettingKey := previousSettingKey;
      groups := [];
      index := 0;
      currentKeys := {};
      previousKeys := {};
      nextSubscribed, previousSubscribed := false, false;
      events := [];
      invocations := [];
    }

    /** `OnNextSetting += handler`: from now on the event has a subscriber. */
    method SubscribeNextSetting()
      modifies this`nextSubscribed
      ensures nextSubscribed
    {
      nextSubscribed := true;
    }

    /** `OnPreviousSetting += handler`: from now on the event has a subscriber. */
    method SubscribePreviousSetting()
      modifies this`previousSubscribed
      ensures previousSubscribed
    {
      previousSubscribed := true;
    }

    /**
     * `AddSettingGroup`: appends the group at the end of the order. An existing
     * name makes `Dictionary.Add` throw (`ok` is false) and nothing changes.
     */
    method AddSettingGroup(groupName: string, settings: seq<Setting>) returns (ok: bool)
      requires Valid()
      modifies this`groups
      ensures Valid()
      ensures ok <==> forall i :: 0 <= i < |old(groups)| ==> old(groups)[i].name != groupName
      ensures groups == if ok then old(groups) + [SettingGroup(groupName, settings)] else old(groups)
    {
      ok := FindGroup(groups, groupName).None?;
      if ok {
        groups := groups + [SettingGroup(groupName, settings)];
      }
    }

    /**
     * `AddSetting`: appends the setting to the named group's array, in place in
     * the group order; an unknown group name changes nothing.
     */
    method AddSetting(groupName: string, setting: Setting)
      requires Valid()
      modifies this`groups
      ensures Valid()
      ensures Names(groups) == Names(old(groups))
      ensures match FindGroup(old(groups), groupName)
        case None => groups == old(groups)
        case Some(i) => groups == old(groups)[i := SettingGroup(groupName, old(groups)[i].settings + [setting])]
    {
      match FindGroup(groups, groupName)
      case None =>
      case Some(i) =>
        groups := groups[i := SettingGroup(groupName, groups[i].settings + [setting])];
    }

    /**
     * `NextSetting`: moves the index forward with wrap-around, then raises
     * `OnNextSetting` with the old and new group names. With a subscriber, looking
     * the names up throws (`ok` is false, no event) when the old index names no
     * group: with no groups, or at index -1; the index has been moved by then.
     * With no subscriber the names are never looked up and nothing throws.
     */
    method NextSetting() returns (ok: bool)
      requires Valid()
      modifies this`index, this`events
      ensures Valid()
      ensures index == NextIndex(old(index), |groups|)
      ensures ok == (!nextSubscribed || old(Healthy()))
      ensures old(Healthy()) ==> Healthy()
      ensures events == if nextSubscribed && old(Healthy())
                        then old(events) + [OnNextSetting(ChangeSettingEventArgs(groups[old(index)].name, groups[index].name))]
                        else old(events)
    {
      var oldIndex := index;
      index := if index < |groups| - 1 then index + 1 else 0;
      if nextSubscribed {
        if !(0 <= oldIndex < |groups|) {
          return false;
        }
        events := events + [OnNextSetting(ChangeSettingEventArgs(groups[oldIndex].name, groups[index].name))];
      }
      ok := true;
    }

    /**
     * `PreviousSetting`: moves the index back with wrap-around, then raises
     * `OnPreviousSetting` with the old and new group names; fails like `NextSetting`.
     */
    method PreviousSetting() returns (ok: bool)
      requires Valid()
      modifies this`index, this`events
      ensures Valid()
      ensures index == PreviousIndex(old(index), |groups|)
      ensures ok == (!previousSubscribed || old(Healthy()))
      ensures old(Healthy()) ==> Healthy()
      ensures events == if previousSubscribed && old(Healthy())
                        then old(events) + [OnPreviousSetting(ChangeSettingEventArgs(groups[old(index)].name, groups[index].name))]
                        else old(events)
    {
      var oldIndex := index;
      index := if index <= 0 then |groups| - 1 else index - 1;
      if previousSubscribed {
        if !(0 <= oldIndex < |groups|) {
          return false;
        }
        events := events + [OnPreviousSetting(ChangeSettingEventArgs(groups[oldIndex].name, groups[index].name))];
      }
      ok := true;
    }

    /**
     * `ProcessCurrentSettingGroup`: walks the groups until it meets the one the
     * index names, then calls the change action of each of its settings whose key
     * has a rising edge. With groups present and index -1 the name lookup throws.
     */
    method ProcessCurrentSettingGroup() returns (ok: bool)
      requires Valid()
      modifies this`invocations
      ensures ok == (|groups| == 0 || Healthy())
      ensures invocations == if ok && |groups| > 0
                             then old(invocations) + Fired(groups[index].settings, currentKeys, previousKeys)
                             else old(invocations)
    {
      var j := 0;
      while j < |groups|
        invariant 0 <= j <= |groups|
        invariant j > 0 ==> Healthy() && j <= index
        invariant invocations == old(invocations)
      {
        if !(0 <= index < |groups|) {
          return false;
        }
        if groups[j].name == groups[index].name {
          assert j == index;
          var settings := groups[j].settings;
          for k := 0 to |settings|
            invariant invocations == old(invocations) + Fired(settings[..k], currentKeys, previousKeys)
          {
            assert settings[..k + 1][..k] == settings[..k];
            var setting := settings[k];
            if RisingEdge(currentKeys, previousKeys, setting.invokeActionKey) {
              invocations := invocations + [Invocation(setting.name, setting.changeAmount)];
            }
          }
          assert settings[..|settings|] == settings;
          return true;
        }
        j := j + 1;
      }
      ok := true;
    }

    /**
     * The two edge checks at the head of `Update`: `NextSetting` on a rising edge
     * of the next key, then `PreviousSetting` on a rising edge of the previous
     * key. A thrown lookup stops the frame where it happens.
     */
    method CycleOnEdges(nextEdge: bool, previousEdge: bool) returns (ok: bool)
      requires Valid()
      modifies this`index, this`events
      ensures Valid()
      ensures ok <==> !CycleThrows(old(index), |groups|, nextEdge, previousEdge, nextSubscribed, previousSubscribed)
      ensures index == if nextEdge && nextSubscribed && !(0 <= old(index) < |groups|)
                       then NextIndex(old(index), |groups|)
                       else CycledIndex(old(index), |groups|, nextEdge, previousEdge)
      ensures old(Healthy()) ==> Healthy()
      ensures ok ==> events == old(events) + CycleEvents(groups, old(index), nextEdge, previousEdge,
                                                         nextSubscribed, previousSubscribed)
      ensures !ok ==> events == old(events)
    {
      ok := true;
      if nextEdge {
        ok := NextSetting();
      }
      ghost var afterNext := index;
      ghost var eventsAfterNext := events;
      if ok && previousEdge {
        assert eventsAfterNext == old(events) + CycleEvents(groups, old(index), nextEdge, false, nextSubscribed, previousSubscribed);
        ok := PreviousSetting();
        if ok {
          assert events == eventsAfterNext + CycleEvents(groups, afterNext, false, true, false, previousSubscribed);
          CycleEventsSplit(groups, old(index), nextEdge, previousEdge, nextSubscribed, previousSubscribed);
        } else {
          assert !(nextEdge && nextSubscribed);
        }
      }
    }

    /**
     * `Update`: takes this frame's snapshot, cycles on a rising edge of the next
     * key and then of the previous key, fires the current group's settings, and
     * keeps the snapshot as the previous one. A thrown lookup (`ok` false) stops
     * the frame where it happens, before the snapshot is kept.
     */
    method Update(keys: KeySnapshot) returns (ok: bool)
      requires Valid()
      modifies this`currentKeys, this`previousKeys, this`index, this`events, this`invocations
      ensures Valid()
      ensures currentKeys == keys
      ensures var nextEdge := RisingEdge(keys, old(previousKeys), nextSettingKey);
              var previousEdge := RisingEdge(keys, old(previousKeys), previousSettingKey);
              ok <==> !FrameThrows(old(index), |groups|, nextEdge, previousEdge, nextSubscribed, previousSubscribed)
      ensures var nextEdge := RisingEdge(keys, old(previousKeys), nextSettingKey);
              var previousEdge := RisingEdge(keys, old(previousKeys), previousSettingKey);
              ok ==> && index == CycledIndex(old(index), |groups|, nextEdge, previousEdge)
                     && (old(Healthy()) ==> Healthy())
                     && previousKeys == keys
                     && events == old(events) + CycleEvents(groups, old(index), nextEdge, previousEdge,
                                                            nextSubscribed, previousSubscribed)
                     && invocations == old(invocations) + (if groups == [] then []
                                                           else Fired(groups[index].settings, keys, old(previousKeys)))
      ensures var nextEdge := RisingEdge(keys, old(previousKeys), nextSettingKey);
              var previousEdge := RisingEdge(keys, old(previousKeys), previousSettingKey);
              !ok ==> && index == (if nextEdge && nextSubscribed && !(0 <= old(index) < |groups|)
                                   then NextIndex(old(index), |groups|)
                                   else CycledIndex(old(index), |groups|, nextEdge, previousEdge))
                      && previousKeys == old(previousKeys)
                      && events == old(events)
                      && invocations == old(invocations)
    {
      currentKeys := keys;
      var nextEdge := RisingEdge(currentKeys, previousKeys, nextSettingKey);
      var previousEdge := RisingEdge(currentKeys, previousKeys, previousSettingKey);
      ghost var cycleThrows := CycleThrows(index, |groups|, nextEdge, previousEdge, nextSubscribed, previousSubscribed);
      ghost var cycled := CycledIndex(index, |groups|, nextEdge, previousEdge);
      ghost var throws := FrameThrows(index, |groups|, nextEdge, previousEdge, nextSubscribed, previousSubscribed);
      assert throws == (cycleThrows || (0 < |groups| && !(0 <= cycled < |groups|)));
      ghost var fired := if groups == [] || !(0 <= cycled < |groups|) then []
                         else Fired(groups[cycled].settings, keys, previousKeys);
      ok := CycleOnEdges(nextEdge, previousEdge);
      if ok {
        assert index == cycled;
        ok := ProcessCurrentSettingGroup();
        if ok {
          assert invocations == old(invocations) + fired;
          previousKeys := currentKeys;
        }
      }
      assert ok == !throws;
      assert nextEdge == RisingEdge(keys, old(previousKeys), nextSettingKey);
      assert previousEdge == RisingEdge(keys, old(previousKeys), previousSettingKey);
    }
  }
}
