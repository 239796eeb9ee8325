/** `MultiSettings::impl`: the configuration switcher over the flat store. Each method is
    proved to be the operation of Configurations.dfy on the named configurations the store
    stands for. Windows, menus, dialogs and the file behind the store are not part of it:
    what a dialog answers is a parameter. */
module MultiSettings {
  import opened Decimals
  import opened Wrappers
  import opened SettingsStore
  import opened Configurations

  datatype RepositionType = Unchanged | ReplaceSettings | SaveAndReplace

  /** The names tried for a clone: the plain one, then numbered from two. */
  function CloneName(source: string, tried: nat): string {
    var root := source + " - Copy";
    if tried == 0 then root else root + "(" + Number(tried + 1) + ")"
  }

  lemma CloneNamesDiffer(source: string, a: nat, b: nat)
    requires CloneName(source, a) == CloneName(source, b)
    ensures a == b
  {
    var root := source + " - Copy";
    if a > 0 && b > 0 {
      var x, y := Number(a + 1), Number(b + 1);
      assert (root + "(" + x + ")")[|root| + 1..] == x + ")";
      assert (root + "(" + y + ")")[|root| + 1..] == y + ")";
      assert (x + ")")[..|x|] == x && (y + ")")[..|y|] == y;
    }
  }

  lemma CloneNameValid(source: string, tried: nat)
    requires ValidName(source)
    ensures ValidName(CloneName(source, tried))
  {
  }

  class MultiSettings {
    var store: Store
    var current: string
    var newSettings: Dictionary
    var repositionType: RepositionType
    var exitFlag: bool
    var mainWindow: bool
    const defaultName: string
    ghost var view: View

    ghost predicate StoreValid()
      reads this
    {
      Rep(store, view) && Common(CURRENT_NAME) in view && ValidName(Abs(view).current)
    }

    /** The data model: the store stands for configurations, and the pending change, if
        any, is one that exit can carry out. */
    ghost predicate Valid()
      reads this
    {
      && StoreValid() && UserKeys(newSettings)
      && match repositionType
         case Unchanged => current == Abs(view).current
         case ReplaceSettings => current == Abs(view).current
         case SaveAndReplace => ValidName(current)
    }

    ghost function State(): Configs
      requires StoreValid()
      reads this
    {
      Abs(view)
    }

    ghost function PendingChange(): Pending
      reads this
    {
      match repositionType
      case Unchanged => Nothing
      case ReplaceSettings => Replace(newSettings)
      case SaveAndReplace => Switch(current, newSettings)
    }

    /** No change is pending, the current name is not among the alternatives, and the window
        is there to offer the menus. */
    ghost predicate Idle()
      reads this
    {
      Valid() && State().Valid() && repositionType == Unchanged && mainWindow
    }

    /** The configuration that bore the name of the current name's key is purged, and the
        current name with it. */
    ghost predicate NameLost()
      reads this
    {
      Rep(store, view) && Common(CURRENT_NAME) !in view
    }

    // ----- starting -----

    /** Opens a store: takes over the name that an earlier version kept at the root, falls
        back to the default name, and switches to the configuration asked for if it exists. */
    constructor Open(store: Store, ghost view: View, configName: string, defaultName: string)
      requires Rep(if CURRENT_GROUP_KEY in store then RemoveKey(store, CURRENT_GROUP_KEY) else store, view)
      requires Startable(view, LegacyName(store), defaultName)
      ensures Valid() && repositionType == Unchanged && exitFlag && !mainWindow
      ensures State() == Started(view, LegacyName(store), configName, defaultName)
    {
      this.store, this.view, this.defaultName := store, view, defaultName;
      current, newSettings, repositionType, exitFlag, mainWindow := "", map[], Unchanged, true, false;
      new;
      hide Rep, LiveOf, OthersOf, CommonOf, ValidName, UserKeys;
      NoKeys();
      if CURRENT_GROUP_KEY in this.store {
        current := this.store[CURRENT_GROUP_KEY].ToString();
        this.store := RemoveKey(this.store, CURRENT_GROUP_KEY);
        TakeOver();
      }
      Bootstrap(configName);
    }

    /** The name of an earlier version: its group becomes live and what was live becomes
        the default configuration. */
    method TakeOver()
      requires Rep(store, view) && ValidName(defaultName)
      requires (current == "" || ValidName(current)) && repositionType == Unchanged && exitFlag && newSettings == map[]
      modifies this
      ensures StoreValid() && repositionType == Unchanged && exitFlag && !mainWindow == !old(mainWindow) &&
              newSettings == map[]
      ensures State() == TakenOver(old(view), old(current), defaultName)
    {
      hide Rep, OtherOf, LiveOf, OthersOf, CommonOf, ValidName, UserKeys, Group, Settings;
      if current != "" {
        newSettings := GetSettings(Group(current));
        OtherSettings(store, view, current);
        OtherUserKeys(view, current);
        SetCurrentName(defaultName);
        repositionType := SaveAndReplace;
        var _ := Reposition();
      } else {
        SetCurrentName(defaultName);
      }
    }

    /** Determines the current name and switches to another configuration if asked to. */
    method Bootstrap(configName: string)
      requires Rep(store, view) && ValidName(StoredOr(view, defaultName))
      requires repositionType == Unchanged && exitFlag && newSettings == map[]
      modifies this
      ensures Valid() && repositionType == Unchanged && exitFlag && mainWindow == old(mainWindow)
      ensures State() == Asked(Found(old(view), defaultName), configName)
    {
      hide Rep, OtherOf, LiveOf, CommonOf, ValidName, UserKeys, Group, Settings, ChildGroups;
      NoKeys();
      NameIfStored(store, view);
      EmptyIsNoName(store, view);
      NamesAreChildGroups(store, view);
      var available := ChildGroups(store, ALTERNATIVES);
      current := if ALTERNATIVES + CURRENT_NAME in store then store[ALTERNATIVES + CURRENT_NAME].ToString() else "";
      if current == "" {
        current := defaultName;
        SetCurrentName(current);
      }
      if configName != "" && configName in available && configName != current {
        newSettings := GetSettings(Group(configName));
        ValidAlternative(store, view, configName);
        OtherSettings(store, view, configName);
        OtherUserKeys(view, configName);
        current := configName;
        repositionType := SaveAndReplace;
        var _ := Reposition();
      }
    }

    /** The application's window and menus are there. */
    method CreateMenuActions()
      modifies `mainWindow
      ensures mainWindow
    {
      mainWindow := true;
    }

    // ----- settings in groups -----

    method GetSettings(group: string) returns (settings: Dictionary)
      ensures settings == Settings(store, group)
    {
      settings := map[];
      var keys := AllKeys(store, group);
      var todo := keys;
      while todo != {}
        invariant todo <= keys
        invariant settings == map u | u in keys && u !in todo && Gathered(u) :: store[group + u]
        decreases todo
      {
        var key :| key in todo;
        if !Contains(key, ROOT_GROUP) && !Contains(key, PLACE_HOLDER) {
          settings := settings[key := store[group + key]];
        }
        todo := todo - {key};
      }
    }

    /** Writes a dictionary into the live configuration (no name) or a named group. */
    method LoadFrom(name: Option<string>, dictionary: Dictionary, addPlaceholder: bool)
      requires Rep(store, view) && UserKeys(dictionary)
      requires name.Some? ==> ValidName(name.value)
      requires addPlaceholder ==> name.Some?
      modifies `store, `view
      ensures Rep(store, view)
      ensures view == if addPlaceholder then PutOther(old(view), name.value, dictionary)
              else Put(old(view), name, dictionary)
    {
      hide Rep, Put, UserKey, KeyOk, Path;
      ghost var before := view;
      PutNone(before, name);
      if dictionary != map[] {
        var todo := dictionary.Keys;
        ghost var done: Dictionary := map[];
        while todo != {}
          invariant todo <= dictionary.Keys && done == map u | u in dictionary && u !in todo :: dictionary[u]
          invariant Rep(store, view) && view == Put(before, name, done)
          decreases todo
        {
          var u :| u in todo;
          LoadKey(name, u);
          RepSet(store, view, KeyIn(name, u), dictionary[u]);
          PutOne(before, name, done, u, dictionary[u]);
          store := store[(if name.None? then "" else Group(name.value)) + u := dictionary[u]];
          view := view[KeyIn(name, u) := dictionary[u]];
          done := done[u := dictionary[u]];
          todo := todo - {u};
        }
        assert done == dictionary;
      } else if addPlaceholder {
        LoadPlaceHolder(name.value);
        RepSet(store, view, Other(name.value, PLACE_HOLDER), Invalid);
        store := store[Group(name.value) + PLACE_HOLDER := Invalid];
        view := view[Other(name.value, PLACE_HOLDER) := Invalid];
      }
    }

    /** Removes every live setting, key by key. */
    method PurgeLive()
      requires Rep(store, view)
      modifies `store, `view
      ensures Rep(store, view) && view == NoLive(old(view))
    {
      hide Rep, UserKey, Path;
      ghost var before := view;
      var todo := AllKeys(store, "");
      assert forall k :: k in view && k.Live? ==> k.key in todo by {
        LiveListed(store, view);
      }
      while todo != {}
        invariant Rep(store, view)
        invariant forall k :: k in view <==> k in before && (k.Live? ==> k in view)
        invariant forall k :: k in view ==> view[k] == before[k]
        invariant forall k :: k in view && k.Live? ==> k.key in todo
        decreases todo
      {
        var key :| key in todo;
        if !Contains(key, ROOT_GROUP) {
          assert UserKey(key) by {
            UserKeyIs(key);
          }
          RepRemoveLive(store, view, key);
          store := RemoveKey(store, key);
          view := WithoutLive(view, key);
        } else {
          NotLive(store, view, key);
        }
        todo := todo - {key};
      }
    }

    /** Puts the live settings aside under the name they have in the store. */
    method SaveCurrent()
      requires StoreValid()
      modifies `store, `view
      ensures Rep(store, view) && Common(CURRENT_NAME) in view
      ensures Abs(view) == PutAside(old(State()), old(State()).current, old(State()).live)
    {
      hide Rep, LiveOf, OtherOf, OthersOf, CommonOf, Put, PutOther, PutAside, UserKeys, ValidName;
      StoredName(store, view);
      var saved := GetSettings("");
      LiveSettings(store, view);
      LiveUserKeys(store, view);
      var previous := store[ALTERNATIVES + CURRENT_NAME].ToString();
      PutOtherGives(view, previous, saved);
      LoadFrom(Some(previous), saved, true);
    }

    /** Makes the new settings live under the selected name and no longer an alternative. */
    method InstallNew()
      requires Rep(store, view) && Common(CURRENT_NAME) in view && ValidName(current) && UserKeys(newSettings)
      modifies `store, `view
      ensures Rep(store, view) && Common(CURRENT_NAME) in view
      ensures Abs(view) == Purge(Abs(old(view)), current).(current := current, live := newSettings)
    {
      hide Rep, LiveOf, OthersOf, CommonOf, Put, NoLive, WithoutNamed, UserKeys, ValidName;
      NoLiveGives(view);
      NoneLive(view);
      PurgeLive();
      PutLiveGives(view, newSettings);
      LoadFrom(None, newSettings, false);
      RepRemoveNamed(store, view, current);
      PurgeGives(view, current);
      store := RemoveKey(store, ALTERNATIVES + current);
      view := WithoutNamed(view, current);
      SetCurrentName(current);
    }

    /** Carries out the pending change; the result tells whether the program ends. */
    method Reposition() returns (exit: bool)
      requires Valid()
      modifies `store, `view, `newSettings, `repositionType, `exitFlag
      ensures Valid() && repositionType == Unchanged && newSettings == map[]
      ensures State() == Configurations.Exit(old(State()), old(PendingChange()))
      ensures exit == old(exitFlag) && exitFlag
    {
      hide Rep, Abs, ValidName;
      if repositionType == SaveAndReplace {
        SaveCurrent();
      }
      if repositionType != Unchanged {
        InstallNew();
      }
      newSettings := map[];
      repositionType := Unchanged;
      exit := exitFlag;
      exitFlag := true;
    }

    method SetCurrentName(name: string)
      requires Rep(store, view)
      modifies `store, `view
      ensures Rep(store, view) && Common(CURRENT_NAME) in view
      ensures Abs(view) == Configs(name, LiveOf(old(view)), OthersOf(old(view)), CommonOf(old(view)))
    {
      hide Rep, LiveOf, OthersOf, CommonOf;
      NameKey();
      RepSet(store, view, Common(CURRENT_NAME), Text(name));
      NameGives(view, Text(name));
      store := store[ALTERNATIVES + CURRENT_NAME := Text(name)];
      view := view[Common(CURRENT_NAME) := Text(name)];
    }

    // ----- the application and the common values -----

    method SetValue(key: string, value: Variant)
      requires Valid() && UserKey(key)
      modifies `store, `view
      ensures Valid() && State() == Apply(old(State()), Write(key, value)) && PendingChange() == old(PendingChange())
    {
      hide Rep, UserKey, LiveOf, OthersOf, CommonOf;
      LoadKey(None, key);
      RepSet(store, view, Live(key), value);
      LiveGives(view, key, value);
      store := store["" + key := value];
      view := view[Live(key) := value];
    }

    method Remove(key: string)
      requires Valid() && UserKey(key)
      modifies `store, `view
      ensures Valid() && State() == Apply(old(State()), Configurations.Op.Remove(key)) &&
              PendingChange() == old(PendingChange())
    {
      hide Rep, UserKey, LiveOf, OthersOf, CommonOf;
      RepRemoveLive(store, view, key);
      LiveGives(view, key, Invalid);
      store := RemoveKey(store, key);
      view := WithoutLive(view, key);
    }

    method CommonValue(key: string, default: Variant) returns (value: Variant)
      requires Valid() && ValidName(key) && key != CURRENT_NAME
      ensures value == if key in State().common then State().common[key] else default
    {
      CommonKey(store, view, key);
      value := if ALTERNATIVES + key in store then store[ALTERNATIVES + key] else default;
    }

    method SetCommonValue(key: string, value: Variant)
      requires Valid() && ValidName(key) && key != CURRENT_NAME
      modifies `store, `view
      ensures Valid() && State() == Apply(old(State()), SetCommon(key, value)) &&
              PendingChange() == old(PendingChange())
    {
      hide Rep, LiveOf, OthersOf, CommonOf;
      CommonKey(store, view, key);
      RepSet(store, view, Common(key), value);
      CommonGives(view, key, value);
      store := store[ALTERNATIVES + key := value];
      view := view[Common(key) := value];
    }

    /** Removing a common value takes a configuration of the same name with it. */
    method RemoveCommonValue(key: string)
      requires Valid() && (key == "" || ValidName(key))
      modifies `store, `view
      ensures if key == CURRENT_NAME then NameLost()
              else
                && Valid() && PendingChange() == old(PendingChange())
                && State() == if key == "" then old(State()) else Apply(old(State()), RemoveCommon(key))
    {
      hide Rep, LiveOf, OtherOf, OthersOf, CommonOf;
      EmptyIsNoName(store, view);
      if key == "" {
        return;
      }
      CommonKey(store, view, key);
      RepRemoveNamed(store, view, key);
      PurgeGives(view, key);
      PurgeKeepsName(view, key);
      store := RemoveKey(store, ALTERNATIVES + key);
      view := WithoutNamed(view, key);
    }

    // ----- menu actions -----

    method Restart(type_: RepositionType)
      modifies `repositionType, `exitFlag, `mainWindow
      ensures repositionType == type_ && !exitFlag && !mainWindow
    {
      repositionType := type_;
      exitFlag := false;
      mainWindow := false;
    }

    /** Remembers the target's settings; the switch itself waits for the exit. */
    method SelectConfiguration(target: string)
      requires Valid() && (mainWindow ==> repositionType == Unchanged)
      modifies `current, `newSettings, `repositionType, `exitFlag, `mainWindow
      ensures Valid() && State() == old(State())
      ensures if old(mainWindow) && target in State().others && target != old(current)
              then PendingChange() == Switch(target, State().others[target]) && !exitFlag && !mainWindow
              else PendingChange() == old(PendingChange()) && exitFlag == old(exitFlag) && mainWindow == old(mainWindow)
    {
      hide Rep, OtherOf, LiveOf, CommonOf, UserKey;
      NamesAreChildGroups(store, view);
      if mainWindow && target != current {
        if target in ChildGroups(store, ALTERNATIVES) {
          ValidAlternative(store, view, target);
          newSettings := GetSettings(Group(target));
          OtherSettings(store, view, target);
          OtherUserKeys(view, target);
          current := target;
          Restart(SaveAndReplace);
        }
      }
    }

    /** Exit carries out the pending change and tells whether the program ends. */
    method Exit() returns (exit: bool)
      requires Valid()
      modifies `store, `view, `newSettings, `repositionType, `exitFlag
      ensures Valid() && PendingChange() == Nothing && exitFlag
      ensures State() == Configurations.Exit(old(State()), old(PendingChange())) && exit == old(exitFlag)
    {
      exit := Reposition();
    }

    /** The settings of a configuration, live or put aside. */
    method SettingsOf(name: string) returns (settings: Dictionary)
      requires Valid() && repositionType == Unchanged && name in State().Names()
      ensures State().Lookup(name) == Some(settings) && UserKeys(settings)
    {
      hide Rep, OtherOf, LiveOf, CommonOf, UserKey;
      if name == current {
        settings := GetSettings("");
        LiveSettings(store, view);
        LiveUserKeys(store, view);
      } else {
        ValidAlternative(store, view, name);
        settings := GetSettings(Group(name));
        OtherSettings(store, view, name);
        OtherUserKeys(view, name);
      }
    }

    /** Replaces the settings put aside under a name. */
    method ReplaceGroup(target: string, settings: Dictionary)
      requires StoreValid() && ValidName(target) && target != State().current && UserKeys(settings)
      modifies `store, `view
      ensures if target == CURRENT_NAME then NameLost()
              else StoreValid() && State() == SetSettings(old(State()), target, settings)
    {
      PurgeGroup(target);
      LoadGroup(target, settings);
    }

    /** Removes a configuration and whatever else bears its name. */
    method PurgeGroup(target: string)
      requires Rep(store, view) && Common(CURRENT_NAME) in view && ValidName(target)
      modifies `store, `view
      ensures Rep(store, view) && view == WithoutNamed(old(view), target)
      ensures if target == CURRENT_NAME then NameLost()
              else Common(CURRENT_NAME) in view && Abs(view) == Purge(Abs(old(view)), target)
    {
      hide Rep, Abs, ValidName, Purge, RemoveKey;
      RepRemoveNamed(store, view, target);
      PurgeKeepsName(view, target);
      PurgeGives(view, target);
      store := RemoveKey(store, ALTERNATIVES + target);
      view := WithoutNamed(view, target);
    }

    /** Loads settings into the group of a name. */
    method LoadGroup(name: string, settings: Dictionary)
      requires Rep(store, view) && ValidName(name) && UserKeys(settings)
      modifies `store, `view
      ensures Rep(store, view) && (Common(CURRENT_NAME) in view <==> Common(CURRENT_NAME) in old(view))
      ensures Common(CURRENT_NAME) in view ==> Abs(view) == PutAside(Abs(old(view)), name, settings)
    {
      hide Rep, Abs, ValidName, UserKeys, PutAside, PutOther;
      PutOtherAt(view, name, settings, Common(CURRENT_NAME));
      if Common(CURRENT_NAME) in view {
        PutOtherGives(view, name, settings);
      }
      LoadFrom(Some(name), settings, true);
    }

    /** The first of the clone names that is taken neither by an alternative nor by the
        current configuration; the search ends because each name tried was taken. */
    method FreeName(source: string) returns (newName: string)
      ensures newName !in ChildGroups(store, ALTERNATIVES) && newName != current
      ensures exists n: nat :: FirstFree(source, n, newName, ChildGroups(store, ALTERNATIVES) + {current})
    {
      hide *;
      ghost var taken := ChildGroups(store, ALTERNATIVES) + {current};
      ghost var tried: set<string> := {};
      var root := source + " - Copy";
      newName := root;
      var index := 0;
      CloneNames(source);
      while true
        invariant index == 0 ==> newName == root
        invariant |tried| == index && tried <= taken && tried == set m | 0 <= m < index :: CloneName(source, m)
        decreases |taken| - index
      {
        if index > 0 {
          newName := root + "(" + Number(index + 1) + ")";
        }
        index := index + 1;
        assert newName == CloneName(source, index - 1);
        if !(newName in ChildGroups(store, ALTERNATIVES) || newName == current) {
          FirstFreeIs(source, index - 1, newName, tried, taken);
          break;
        }
        FreshName(source, index - 1, tried);
        tried := tried + {newName};
        SubsetSize(tried, taken);
      }
    }

    /** Stores a copy of a configuration under a free name. */
    method CloneConfiguration(source: string) returns (newName: string)
      requires Idle() && source in State().Names()
      modifies `store, `view
      ensures Idle()
      ensures Enabled(old(State()), Clone(source, newName)) && State() == Apply(old(State()), Clone(source, newName))
      ensures exists n: nat :: FirstFree(source, n, newName, old(State()).Names())
    {
      hide Rep, LiveOf, OtherOf, CommonOf, PutOther, UserKeys, FirstFree, ValidName;
      var settings := SettingsOf(source);
      NamesAreChildGroups(store, view);
      newName := FreeName(source);
      SourceValid(store, view, source);
      FirstFreeValid(source, newName, ChildGroups(store, ALTERNATIVES) + {current});
      assert State().Names() == ChildGroups(store, ALTERNATIVES) + {current};
      LoadGroup(newName, settings);
      NothingBefore(settings);
    }

    /** Overwrites the target with the chosen source; the current configuration is
        replaced at the exit. */
    method CloneIntoConfiguration(target: string, chosen: Option<string>, confirmed: bool)
      requires Idle() && target in State().Names()
      requires chosen.Some? ==> chosen.value in State().Names() - {target}
      modifies `store, `view, `newSettings, `repositionType, `exitFlag, `mainWindow
      ensures current == old(current)
      ensures var settings := Cloned(old(State()), target, chosen);
              if !confirmed || settings.None? then Idle() && State() == old(State())
              else OverwrittenOrLost(old(State()), target, settings.value)
    {
      hide Rep, Abs, UserKeys, ValidName, SourceFor, OverwrittenOrLost;
      var source := PickSource(target, chosen);
      if source.Some? && confirmed {
        CloneFrom(target, source.value);
      }
    }

    /** The source of a clone: none, the only other configuration, or the chosen one. */
    method PickSource(target: string, chosen: Option<string>) returns (source: Option<string>)
      requires Idle() && target in State().Names()
      requires chosen.Some? ==> chosen.value in State().Names() - {target}
      ensures source == SourceFor(State().Names() - {target}, chosen)
      ensures source.Some? ==> source.value in State().Names() - {target}
    {
      hide Rep, LiveOf, OtherOf, CommonOf, UserKeys, ValidName;
      NamesAreChildGroups(store, view);
      StoredName(store, view);
      var currentName := store[ALTERNATIVES + CURRENT_NAME].ToString();
      var sources := ChildGroups(store, ALTERNATIVES) + {currentName} - {target};
      assert sources == State().Names() - {target};
      if sources == {} {
        return None;
      }
      if |sources| == 1 {
        var only :| only in sources;
        SingletonIs(sources, only);
        return Some(only);
      }
      return chosen;
    }

    /** The target has these settings: at once, or for the current one at the next exit. */
    ghost predicate Overwritten(before: Configs, target: string, settings: Dictionary)
      reads this
    {
      && Valid()
      && if target == current then
           State() == before && PendingChange() == Replace(settings) && !exitFlag && !mainWindow
         else
           Idle() && State() == SetSettings(before, target, settings)
    }

    /** The same, unless the target could not be purged without losing the current name. */
    ghost predicate OverwrittenOrLost(before: Configs, target: string, settings: Dictionary)
      reads this
    {
      if Purgeable(before, target) then Overwritten(before, target, settings) else NameLost()
    }

    method CloneFrom(target: string, source: string)
      requires Idle() && {target, source} <= State().Names() && source != target
      modifies `store, `view, `newSettings, `repositionType, `exitFlag, `mainWindow
      ensures current == old(current)
      ensures OverwrittenOrLost(old(State()), target, old(State()).Lookup(source).value)
    {
      hide Rep, LiveOf, OtherOf, OthersOf, CommonOf, UserKeys, ValidName;
      newSettings := SettingsOf(source);
      if target == current {
        Restart(ReplaceSettings);
      } else {
        SourceValid(store, view, target);
        ReplaceGroup(target, newSettings);
        newSettings := map[];
        NoKeys();
      }
    }

    /** Clears the target; the current configuration is cleared at the exit. */
    method ResetConfiguration(target: string, confirmed: bool)
      requires Idle() && target in State().Names()
      modifies `store, `view, `newSettings, `repositionType, `exitFlag, `mainWindow
      ensures current == old(current)
      ensures if confirmed then OverwrittenOrLost(old(State()), target, map[]) else Idle() && State() == old(State())
    {
      hide Rep, LiveOf, OtherOf, OthersOf, CommonOf, UserKeys, ValidName;
      NoKeys();
      if !confirmed {
        return;
      }
      if target == current {
        newSettings := map[];
        Restart(ReplaceSettings);
      } else {
        SourceValid(store, view, target);
        ReplaceGroup(target, map[]);
      }
    }

    /** Gives the target the accepted new name, which the dialog keeps free. */
    method RenameConfiguration(target: string, newName: Option<string>)
      requires Idle() && target in State().Names()
      requires newName.Some? ==> ValidName(newName.value) && newName.value !in State().Names()
      modifies `store, `view, `current
      ensures if newName.None? || Purgeable(old(State()), target) then
                Idle() && State() == if newName.None? then old(State())
                  else Apply(old(State()), Rename(target, newName.value))
              else NameLost()
    {
      hide Rep, LiveOf, OtherOf, OthersOf, CommonOf, UserKeys, ValidName;
      if newName.None? {
        return;
      }
      if target == current {
        SetCurrentName(newName.value);
        current := newName.value;
      } else {
        var settings := SettingsOf(target);
        SourceValid(store, view, target);
        PurgeGroup(target);
        LoadGroup(newName.value, settings);
      }
    }

    /** Deletes a configuration; the current one cannot be deleted here. */
    method DeleteConfiguration(target: string, confirmed: bool)
      requires Idle() && target in State().Names()
      modifies `store, `view
      ensures if target == current || !confirmed then Idle() && State() == old(State())
              else if Purgeable(old(State()), target) then Idle() && State() == Purge(old(State()), target)
              else NameLost()
    {
      hide Rep, LiveOf, OtherOf, OthersOf, CommonOf, UserKeys, ValidName;
      if target == current || !confirmed {
        return;
      }
      SourceValid(store, view, target);
      PurgeGroup(target);
    }

    // ----- runs -----

    /** What the application makes of the live settings when its window closes. */
    method SaveLive(left: Dictionary)
      requires Valid() && UserKeys(left)
      modifies `store, `view
      ensures Valid() && State() == old(State()).(live := left)
    {
      hide Rep, LiveOf, OtherOf, CommonOf, Put, NoLive, UserKeys, ValidName;
      NoLiveGives(view);
      NoneLive(view);
      PurgeLive();
      PutLiveGives(view, left);
      LoadFrom(None, left, false);
    }

    /** Ends the window's life, carries out what is pending, and opens the next window. */
    method NextWindow()
      requires Valid() && State().Valid()
      modifies `store, `view, `newSettings, `repositionType, `exitFlag, `mainWindow
      ensures Idle() && State() == Configurations.Exit(old(State()), old(PendingChange()))
    {
      var _ := Exit();
      CreateMenuActions();
    }

    /** Any operation of the menus, with the exit it causes, is its counterpart on the
        configurations, unless it purges one that takes the current name with it. */
    method Perform(op: Op) returns (kept: bool)
      requires Idle() && Offered(State(), op) && Performable(State(), op)
      modifies `store, `view, `current, `newSettings, `repositionType, `exitFlag, `mainWindow
      ensures kept <==> Enabled(old(State()), op)
      ensures if kept then Idle() && State() == Apply(old(State()), op) else NameLost()
    {
      hide Rep, Abs, UserKeys, ValidName, UserKey, FirstFree, SourceFor, Purge, PutAside;
      if Enabled(State(), op) {
        OnlyTarget(State(), op, "");
      }
      match op {
        case Write(key, value) => SetValue(key, value);
        case Remove(key) => Remove(key);
        case SetCommon(key, value) => SetCommonValue(key, value);
        case RemoveCommon(key) =>
          NotEmpty(key);
          RemoveCommonValue(key);
        case Clone(source, name) =>
          var newName := CloneConfiguration(source);
          OneFirstFree(source, name, newName, old(State()).Names());
        case CloneInto(target, source) =>
          OnlySource(old(State()).Names() - {target}, source);
          CloneIntoConfiguration(target, Some(source), true);
          if target == current {
            NextWindow();
          }
        case Reset(target) =>
          ResetConfiguration(target, true);
          if target == current {
            NextWindow();
          }
        case Rename(target, name) => RenameConfiguration(target, Some(name));
        case Delete(target) => DeleteConfiguration(target, true);
        case Select(target, left) =>
          SelectConfiguration(target);
          SaveLive(left);
          NextWindow();
      }
      NameIfStored(store, view);
      kept := ALTERNATIVES + CURRENT_NAME in store;
    }

    /** Every run of operations is the run of their counterparts, as far as the current name
        is kept. */
    method PerformAll(ops: seq<Op>) returns (done: nat)
      requires Idle() && OfferedAll(State(), ops)
      modifies `store, `view, `current, `newSettings, `repositionType, `exitFlag, `mainWindow
      ensures done <= |ops| && EnabledAll(old(State()), ops[..done])
      ensures if done < |ops| then NameLost() && LosesNext(old(State()), ops, done)
              else Idle() && State() == Run(old(State()), ops[..done])
    {
      hide Rep, Abs, Apply, Performable, Offered, Enabled, Run, EnabledAll;
      done := 0;
      NothingRun(State());
      while done < |ops|
        invariant done <= |ops| && Idle() && OfferedAll(State(), ops[done..])
        invariant EnabledAll(old(State()), ops[..done]) && State() == Run(old(State()), ops[..done])
      {
        assert ops[done..][0] == ops[done] && ops[done..][1..] == ops[done + 1..];
        var kept := Perform(ops[done]);
        if !kept {
          return;
        }
        assert ops[..done + 1] == ops[..done] + [ops[done]];
        RunSnoc(old(State()), ops[..done], ops[done]);
        done := done + 1;
      }
    }
  }

  /** The keys and names that the data model can hold; a clone's name is the one searched for. */
  ghost predicate Performable(c: Configs, op: Op) {
    match op
    case Write(k, _) => UserKey(k)
    case Remove(k) => UserKey(k)
    case SetCommon(k, _) => ValidName(k) && k != CURRENT_NAME
    case RemoveCommon(k) => ValidName(k) && k != CURRENT_NAME
    case Clone(source, name) => exists n: nat :: FirstFree(source, n, name, c.Names())
    case Rename(_, name) => ValidName(name)
    case Select(_, left) => UserKeys(left)
    case _ => true
  }

  /** The run gets so far, and the next operation costs the current name. */
  ghost predicate LosesNext(c: Configs, ops: seq<Op>, done: nat) {
    done < |ops| && EnabledAll(c, ops[..done]) && !Enabled(Run(c, ops[..done]), ops[done])
  }

  /** The menus offer each operation when its turn comes, as long as the name is kept. */
  ghost predicate OfferedAll(c: Configs, ops: seq<Op>)
    decreases |ops|
  {
    ops != [] ==>
      && Offered(c, ops[0]) && Performable(c, ops[0])
      && (Enabled(c, ops[0]) ==> OfferedAll(Apply(c, ops[0]), ops[1..]))
  }

  lemma NotEmpty(name: string)
    requires ValidName(name)
    ensures name != ""
  {
  }

  lemma OneFirstFree(source: string, a: string, b: string, taken: set<string>)
    requires exists n: nat :: FirstFree(source, n, a, taken)
    requires exists n: nat :: FirstFree(source, n, b, taken)
    ensures a == b
  {
    var n: nat :| FirstFree(source, n, a, taken);
    var m: nat :| FirstFree(source, m, b, taken);
  }

  lemma OnlySource(sources: set<string>, x: string)
    requires x in sources
    ensures SourceFor(sources, Some(x)) == Some(x)
  {
    if |sources| == 1 {
      SingletonIs(sources, x);
    }
  }

  lemma NoKeys()
    ensures UserKeys(map[])
  {
  }

  lemma SingletonIs(s: set<string>, x: string)
    requires |s| == 1 && x in s
    ensures s == {x}
  {
    assert |s - {x}| == 0;
  }

  /** The configuration to clone from: none, the only candidate, or the chosen one. */
  ghost function SourceFor(sources: set<string>, chosen: Option<string>): (r: Option<string>)
    ensures sources == {} ==> r == None
    ensures forall x :: sources == {x} ==> r == Some(x)
  {
    if sources == {} then None
    else if |sources| == 1 then
      var x :| x in sources;
      SingletonIs(sources, x);
      Some(x)
    else chosen
  }

  /** The settings of the only other configuration or of the chosen one. */
  ghost function Cloned(c: Configs, target: string, chosen: Option<string>): Option<Dictionary> {
    var source := SourceFor(c.Names() - {target}, chosen);
    if source.None? then None else c.Lookup(source.value)
  }

  // ----- what a store starts as -----

  function LegacyName(s: Store): Option<string> {
    if CURRENT_GROUP_KEY in s then Some(s[CURRENT_GROUP_KEY].ToString()) else None
  }

  function StoredOr(v: View, default: string): string {
    if Common(CURRENT_NAME) in v && v[Common(CURRENT_NAME)].ToString() != "" then v[Common(CURRENT_NAME)].ToString()
      else default
  }

  function Found(v: View, default: string): Configs {
    Configs(StoredOr(v, default), LiveOf(v), OthersOf(v), CommonOf(v))
  }

  function TakenOver(v: View, legacy: string, default: string): Configs {
    var c := Configs(default, LiveOf(v), OthersOf(v), CommonOf(v));
    if legacy == "" then c else Exit(c, Switch(legacy, OtherOf(v, legacy)))
  }

  function Asked(c: Configs, configName: string): Configs {
    if configName in c.others && configName != c.current then Exit(c, Switch(configName, c.others[configName])) else c
  }

  function Started(v: View, legacy: Option<string>, configName: string, default: string): Configs {
    Asked(if legacy.Some? then TakenOver(v, legacy.value, default) else Found(v, default), configName)
  }

  ghost predicate Startable(v: View, legacy: Option<string>, default: string) {
    && ValidName(default)
    && match legacy
       case Some(name) => name == "" || ValidName(name)
       case None => ValidName(StoredOr(v, default))
  }

  lemma NameIfStored(s: Store, v: View)
    requires Rep(s, v)
    ensures ALTERNATIVES + CURRENT_NAME in s <==> Common(CURRENT_NAME) in v
    ensures Common(CURRENT_NAME) in v ==> s[ALTERNATIVES + CURRENT_NAME] == v[Common(CURRENT_NAME)]
  {
    NameKey();
    CommonKey(s, v, CURRENT_NAME);
  }

  /** The current name is not listed as an alternative after the start, exactly unless it is
      found, or taken for default, beside a configuration of that name and no other
      configuration is asked for. */
  lemma StartedValid(v: View, legacy: Option<string>, configName: string, default: string)
    ensures var name := if legacy.Some? then default else StoredOr(v, default);
            Started(v, legacy, configName, default).Valid() <==>
              || name !in OthersOf(v)
              || (legacy.Some? && legacy.value != "")
              || (configName in OthersOf(v) && configName != name)
  {
    hide LiveOf, CommonOf, OtherOf, OthersOf, StoredOr;
  }

  /** What taking over an earlier version's name makes of the live settings: they are merged
      into the default configuration, over what it has, or lost when that is the name. They
      are kept as they were exactly when nothing else was there to be merged. */
  lemma TakeOverKeeps(v: View, legacy: string, default: string)
    ensures var c, had := TakenOver(v, legacy, default), OtherOf(v, default);
            && c.Lookup(default) == Some(if legacy == "" then LiveOf(v) else if legacy == default then had
               else had + LiveOf(v))
            && (c.Lookup(default) == Some(LiveOf(v)) <==>
                  legacy == "" || (if legacy == default then had == LiveOf(v) else had.Keys <= LiveOf(v).Keys))
            && (forall n :: n != default && n in OthersOf(v) ==> c.Lookup(n) == Some(OthersOf(v)[n]))
            && (legacy != "" ==> c.current == legacy && c.live == OtherOf(v, legacy))
            && (legacy == "" ==> c.current == default && c.live == LiveOf(v))
            && c.common == if legacy == "" then CommonOf(v) else CommonOf(v) - {legacy}
  {
    hide LiveOf, CommonOf, OtherOf, Names;
    NoneUnder(v, default);
    MergedIs(OtherOf(v, default), LiveOf(v));
  }

  lemma MergedIs(a: Dictionary, b: Dictionary)
    ensures a + b == b <==> a.Keys <= b.Keys
    ensures map[] + b == b
  {
    if a + b == b {
      assert forall u :: u in a ==> u in a + b;
    }
  }

  /** Starting with a configuration asked for switches to it when it is put aside, and what
      was live is found under its name. */
  lemma AskedSwitches(c: Configs, configName: string, n: string)
    requires c.Valid()
    ensures var r := Asked(c, configName);
            if configName in c.others then
              r.current == configName && r.Lookup(n) == c.Lookup(n) && r.common == c.common - {configName}
            else r == c
  {
    NothingBefore(c.live);
  }

  lemma LoadKey(name: Option<string>, u: string)
    requires UserKey(u) && (name.Some? ==> ValidName(name.value))
    ensures KeyOk(KeyIn(name, u))
    ensures Path(KeyIn(name, u)) == (if name.None? then "" else Group(name.value)) + u
  {
    assert "" + u == u;
  }

  lemma LoadPlaceHolder(n: string)
    requires ValidName(n)
    ensures KeyOk(Other(n, PLACE_HOLDER)) && Path(Other(n, PLACE_HOLDER)) == Group(n) + PLACE_HOLDER
  {
  }

  lemma LiveListed(s: Store, v: View)
    requires Rep(s, v)
    ensures forall k :: k in v && k.Live? ==> k.key in AllKeys(s, "")
  {
    forall k | k in v && k.Live? ensures k.key in AllKeys(s, "") {
      assert "" + k.key == k.key == Path(k);
    }
  }

  lemma UserKeyIs(u: string)
    requires !Contains(u, ROOT_GROUP)
    ensures UserKey(u)
  {
  }

  lemma NotLive(s: Store, v: View, u: string)
    requires Rep(s, v) && Contains(u, ROOT_GROUP)
    ensures Live(u) !in v
  {
  }

  lemma NameKey()
    ensures KeyOk(Common(CURRENT_NAME)) && Path(Common(CURRENT_NAME)) == ALTERNATIVES + CURRENT_NAME
  {
  }

  lemma StoredName(s: Store, v: View)
    requires Rep(s, v) && Common(CURRENT_NAME) in v
    ensures ALTERNATIVES + CURRENT_NAME in s && s[ALTERNATIVES + CURRENT_NAME].ToString() == Abs(v).current
  {
    assert Path(Common(CURRENT_NAME)) == ALTERNATIVES + CURRENT_NAME;
  }

  lemma LiveUserKeys(s: Store, v: View)
    requires Rep(s, v)
    ensures UserKeys(LiveOf(v))
  {
    hide UserKey;
  }

  lemma NoneLive(v: View)
    ensures forall k :: k in NoLive(v) ==> !k.Live?
  {
  }

  /** Names of configurations put aside are valid names. */
  lemma ValidAlternative(s: Store, v: View, n: string)
    requires Rep(s, v) && Common(CURRENT_NAME) in v && n in Abs(v).others
    ensures ValidName(n)
  {
    hide UserKey;
  }

  lemma CommonKey(s: Store, v: View, c: string)
    requires Rep(s, v) && ValidName(c)
    ensures KeyOk(Common(c)) && Path(Common(c)) == ALTERNATIVES + c
    ensures ALTERNATIVES + c in s <==> Common(c) in v
    ensures Common(c) in v ==> s[ALTERNATIVES + c] == v[Common(c)]
  {
    hide UserKey;
    if ALTERNATIVES + c in s {
      var k :| k in v && Path(k) == ALTERNATIVES + c;
      PathInjective(k, Common(c));
    }
  }

  lemma EmptyIsNoName(s: Store, v: View)
    requires Rep(s, v)
    ensures "" !in OthersOf(v) && "" !in CommonOf(v)
  {
    hide UserKey;
  }

  lemma CloneNames(source: string)
    ensures CloneName(source, 0) == source + " - Copy"
    ensures forall n :: n > 0 ==> CloneName(source, n) == source + " - Copy" + "(" + Number(n + 1) + ")"
  {
  }

  lemma FreshName(source: string, n: nat, tried: set<string>)
    requires tried == set m | 0 <= m < n :: CloneName(source, m)
    ensures CloneName(source, n) !in tried
  {
    hide CloneName;
    forall m | 0 <= m < n ensures CloneName(source, m) != CloneName(source, n) {
      if CloneName(source, m) == CloneName(source, n) {
        CloneNamesDiffer(source, m, n);
      }
    }
  }

  lemma {:induction false} SubsetSize(a: set<string>, b: set<string>)
    requires a <= b
    ensures |a| <= |b|
  {
    if a != {} {
      var x :| x in a;
      SubsetSize(a - {x}, b - {x});
    }
  }

  lemma OtherUserKeys(v: View, n: string)
    ensures UserKeys(OtherOf(v, n))
  {
    hide UserKey;
  }

  /** `name` is the first clone name that is not taken. */
  ghost predicate FirstFree(source: string, n: nat, name: string, taken: set<string>) {
    name == CloneName(source, n) && name !in taken && forall m :: 0 <= m < n ==> CloneName(source, m) in taken
  }

  lemma FirstFreeIs(source: string, n: nat, name: string, tried: set<string>, taken: set<string>)
    requires name == CloneName(source, n) && name !in taken
    requires tried <= taken && tried == set m | 0 <= m < n :: CloneName(source, m)
    ensures FirstFree(source, n, name, taken)
  {
    hide CloneName;
    forall m | 0 <= m < n ensures CloneName(source, m) in taken {
      assert CloneName(source, m) in tried;
    }
  }

  lemma SourceValid(s: Store, v: View, source: string)
    requires Rep(s, v) && Common(CURRENT_NAME) in v && ValidName(Abs(v).current) && source in Abs(v).Names()
    ensures ValidName(source)
  {
    if source != Abs(v).current {
      ValidAlternative(s, v, source);
    }
  }

  lemma FirstFreeValid(source: string, name: string, taken: set<string>)
    requires ValidName(source) && exists n: nat :: FirstFree(source, n, name, taken)
    ensures ValidName(name)
  {
    var n: nat :| FirstFree(source, n, name, taken);
    CloneNameValid(source, n);
  }
}
