/**
 * The hook-time filter activator (`bpextender_run_bp_included_settings`),
 * as functions over the filter registry, a multiset of registrations: one
 * step per option pair, and the whole `foreach` as a left fold. Each
 * recognised option touches only hooks no other option touches.
 */
module IncludedSettings {
  import opened Wrappers
  import opened Options
  import opened Hooks
  import opened RootBlog

  type Registry = multiset<Filter>

  // Option keys read by this pass (`depricated` is the stored spelling).
  const PROFILE_AUTOLINK := "profile_autolink_checkbox"
  const USER_MENTIONS := "user_mentions_checkbox"
  const ROOT_PROFILES := "root_profiles_checkbox"
  const LDAP_USERNAME := "ldap_username_checkbox"
  const WYSIWYG_EDITOR := "wysiwyg_editor_checkbox"
  const DEPRECATED_CODE := "depricated_code_checkbox"
  const ENABLE_MULTIBLOG := "enable_multiblog_checkbox"

  const INCLUDED_KEYS := {PROFILE_AUTOLINK, USER_MENTIONS, ROOT_PROFILES, LDAP_USERNAME,
                          WYSIWYG_EDITOR, DEPRECATED_CODE, ENABLE_MULTIBLOG, ROOT_BLOG_SELECT}

  // Hooks this pass touches.
  const PROFILE_FIELD_VALUE_HOOK := "bp_get_the_profile_field_value"
  const DO_MENTIONS_HOOK := "bp_activity_do_mentions"
  const MENTIONS_SCRIPTS_HOOK := "bp_activity_maybe_load_mentions_scripts"
  const ROOT_PROFILES_HOOK := "bp_core_enable_root_profiles"
  const USERNAME_COMPATIBILITY_HOOK := "bp_is_username_compatibility_mode"
  const RICHTEXT_HOOK := "bp_xprofile_is_richtext_enabled_for_field"
  const IGNORE_DEPRECATED_HOOK := "bp_ignore_deprecated"
  const MULTIBLOG_HOOK := "bp_is_multiblog_mode"
  const ROOT_BLOG_ID_HOOK := "bp_get_root_blog_id"

  /** BuddyPress's own auto-link filter, which `profile_autolink_checkbox` removes. */
  const AUTOLINK_FILTER := Filter(PROFILE_FIELD_VALUE_HOOK, "xprofile_filter_link_profile_data", 9)
  const DO_MENTIONS_FILTER := Filter(DO_MENTIONS_HOOK, "__return_false", DEFAULT_PRIORITY)
  const MENTIONS_SCRIPTS_FILTER := Filter(MENTIONS_SCRIPTS_HOOK, "__return_false", DEFAULT_PRIORITY)
  const ROOT_PROFILES_FILTER := Filter(ROOT_PROFILES_HOOK, "__return_true", DEFAULT_PRIORITY)
  const USERNAME_COMPATIBILITY_FILTER := Filter(USERNAME_COMPATIBILITY_HOOK, "__return_true", DEFAULT_PRIORITY)
  const RICHTEXT_FILTER := Filter(RICHTEXT_HOOK, "__return_false", DEFAULT_PRIORITY)
  const IGNORE_DEPRECATED_FILTER := Filter(IGNORE_DEPRECATED_HOOK, "__return_true", DEFAULT_PRIORITY)
  const MULTIBLOG_FILTER := Filter(MULTIBLOG_HOOK, "__return_true", DEFAULT_PRIORITY)
  const ROOT_BLOG_FILTER := Filter(ROOT_BLOG_ID_HOOK, RESOLVER_CALLBACK, DEFAULT_PRIORITY)

  /** The option key that governs each hook; no two keys share a hook. */
  function HookOwner(hook: string): Option<string> {
    if hook == PROFILE_FIELD_VALUE_HOOK then Some(PROFILE_AUTOLINK)
    else if hook == DO_MENTIONS_HOOK || hook == MENTIONS_SCRIPTS_HOOK then Some(USER_MENTIONS)
    else if hook == ROOT_PROFILES_HOOK then Some(ROOT_PROFILES)
    else if hook == USERNAME_COMPATIBILITY_HOOK then Some(LDAP_USERNAME)
    else if hook == RICHTEXT_HOOK then Some(WYSIWYG_EDITOR)
    else if hook == IGNORE_DEPRECATED_HOOK then Some(DEPRECATED_CODE)
    else if hook == MULTIBLOG_HOOK then Some(ENABLE_MULTIBLOG)
    else if hook == ROOT_BLOG_ID_HOOK then Some(ROOT_BLOG_SELECT)
    else None
  }

  /** One iteration of the `foreach`: the `switch` on the option key. */
  function ApplyIncluded(f: Registry, key: string, value: string): (r: Registry)
    ensures key !in INCLUDED_KEYS ==> r == f
    ensures key != ROOT_BLOG_SELECT && value != ON ==> r == f
    ensures key == ROOT_BLOG_SELECT ==> r == f + multiset{ROOT_BLOG_FILTER}
  {
    if key == PROFILE_AUTOLINK then
      if value == ON then f[AUTOLINK_FILTER := 0] else f
    else if key == USER_MENTIONS then
      if value == ON then f + multiset{DO_MENTIONS_FILTER} + multiset{MENTIONS_SCRIPTS_FILTER} else f
    else if key == ROOT_PROFILES then
      if value == ON then f + multiset{ROOT_PROFILES_FILTER} else f
    else if key == LDAP_USERNAME then
      if value == ON then f + multiset{USERNAME_COMPATIBILITY_FILTER} else f
    else if key == WYSIWYG_EDITOR then
      if value == ON then f + multiset{RICHTEXT_FILTER} else f
    else if key == DEPRECATED_CODE then
      if value == ON then f + multiset{IGNORE_DEPRECATED_FILTER} else f
    else if key == ENABLE_MULTIBLOG then
      if value == ON then f + multiset{MULTIBLOG_FILTER} else f
    else if key == ROOT_BLOG_SELECT then
      f + multiset{ROOT_BLOG_FILTER}
    else f
  }

  /** The registry after the `foreach` has visited `opts` in order. */
  function IncludedFilters(f: Registry, opts: OptionPairs): Registry {
    if opts == [] then f
    else ApplyIncluded(IncludedFilters(f, opts[..|opts| - 1]), opts[|opts| - 1].0, opts[|opts| - 1].1)
  }

  // ---------------------------------------------------------------------
  // Reference definition: what each option adds and removes, independent of order.

  /** The registrations one option pair adds. */
  function Added(key: string, value: string): Registry {
    if key == ROOT_BLOG_SELECT then multiset{ROOT_BLOG_FILTER}
    else if value != ON then multiset{}
    else if key == USER_MENTIONS then multiset{DO_MENTIONS_FILTER, MENTIONS_SCRIPTS_FILTER}
    else if key == ROOT_PROFILES then multiset{ROOT_PROFILES_FILTER}
    else if key == LDAP_USERNAME then multiset{USERNAME_COMPATIBILITY_FILTER}
    else if key == WYSIWYG_EDITOR then multiset{RICHTEXT_FILTER}
    else if key == DEPRECATED_CODE then multiset{IGNORE_DEPRECATED_FILTER}
    else if key == ENABLE_MULTIBLOG then multiset{MULTIBLOG_FILTER}
    else multiset{}
  }

  /** Whether one option pair removes BuddyPress's auto-link filter. */
  predicate Removes(key: string, value: string) {
    key == PROFILE_AUTOLINK && value == ON
  }

  /** The keys that add filters, each once. */
  const ADDING_KEYS := [USER_MENTIONS, ROOT_PROFILES, LDAP_USERNAME, WYSIWYG_EDITOR,
                        DEPRECATED_CODE, ENABLE_MULTIBLOG, ROOT_BLOG_SELECT]

  predicate Distinct(ks: seq<string>) {
    forall i, j :: 0 <= i < j < |ks| ==> ks[i] != ks[j]
  }

  /** Everything the options in `m` add under the keys `ks`. */
  function AddedUnder(m: map<string, string>, ks: seq<string>): Registry {
    if ks == [] then multiset{}
    else (if ks[0] in m then Added(ks[0], m[ks[0]]) else multiset{}) + AddedUnder(m, ks[1..])
  }

  /** Everything the options in `m` add. */
  function AllAdded(m: map<string, string>): Registry {
    AddedUnder(m, ADDING_KEYS)
  }

  /** The starting registry, less the auto-link filter when the options in `m` remove it. */
  function Stripped(f: Registry, m: map<string, string>): Registry {
    if PROFILE_AUTOLINK in m && Removes(PROFILE_AUTOLINK, m[PROFILE_AUTOLINK]) then f[AUTOLINK_FILTER := 0] else f
  }

  /** Each option adds only registrations on hooks it owns. */
  lemma AddedOwnHooks(key: string, value: string)
    ensures forall x :: x in Added(key, value) ==> HookOwner(x.hook) == Some(key)
  {
  }

  /** One step of the activator is: remove what the option removes, then add what it adds. */
  lemma StepIsRemoveThenAdd(f: Registry, key: string, value: string)
    ensures ApplyIncluded(f, key, value) == (if Removes(key, value) then f[AUTOLINK_FILTER := 0] else f) + Added(key, value)
  {
    if key == PROFILE_AUTOLINK {
      assert Added(key, value) == multiset{};
    } else if key == USER_MENTIONS {
      if value == ON {
        assert Added(key, value) == multiset{DO_MENTIONS_FILTER, MENTIONS_SCRIPTS_FILTER};
        assert multiset{DO_MENTIONS_FILTER} + multiset{MENTIONS_SCRIPTS_FILTER} == multiset{DO_MENTIONS_FILTER, MENTIONS_SCRIPTS_FILTER};
      } else {
        assert Added(key, value) == multiset{};
      }
    } else if key == ROOT_BLOG_SELECT {
      assert Added(key, value) == multiset{ROOT_BLOG_FILTER};
    } else if value != ON {
      assert Added(key, value) == multiset{};
    } else {
      assert !Removes(key, value);
    }
  }

  /**
   * One step touches only the hooks its key owns, and is a no-op for an
   * unrecognised key and for a checkbox whose value is not "on".
   */
  lemma StepTouchesOwnHooksOnly(f: Registry, key: string, value: string)
    ensures forall x: Filter :: HookOwner(x.hook) != Some(key) ==> ApplyIncluded(f, key, value)[x] == f[x]
  {
    StepIsRemoveThenAdd(f, key, value);
    AddedOwnHooks(key, value);
    assert HookOwner(AUTOLINK_FILTER.hook) == Some(PROFILE_AUTOLINK);
  }

  /**
   * The pass removes nothing but BuddyPress's auto-link filter, and never
   * registers that filter itself.
   */
  lemma {:induction false} IncludedOnlyRemovesAutolink(f: Registry, opts: OptionPairs)
    ensures IncludedFilters(f, opts)[AUTOLINK_FILTER] <= f[AUTOLINK_FILTER]
    ensures f[AUTOLINK_FILTER := 0] <= IncludedFilters(f, opts)
  {
    if opts != [] {
      var init := opts[..|opts| - 1];
      var (key, value) := opts[|opts| - 1];
      var g := IncludedFilters(f, init);
      IncludedOnlyRemovesAutolink(f, init);
      StepIsRemoveThenAdd(g, key, value);
      AddedOwnHooks(key, value);
      assert HookOwner(AUTOLINK_FILTER.hook) == Some(PROFILE_AUTOLINK);
      assert Added(PROFILE_AUTOLINK, value) == multiset{};
      assert g[AUTOLINK_FILTER := 0] <= (if Removes(key, value) then g[AUTOLINK_FILTER := 0] else g);
    }
  }

  lemma AddedOnlyByAddingKeys(key: string, value: string)
    requires key !in ADDING_KEYS
    ensures Added(key, value) == multiset{}
  {
  }

  lemma {:induction false} AddedUnderInsert(m: map<string, string>, ks: seq<string>, key: string, value: string)
    requires key !in m && Distinct(ks)
    ensures AddedUnder(m[key := value], ks) == AddedUnder(m, ks) + (if key in ks then Added(key, value) else multiset{})
  {
    if ks != [] {
      assert Distinct(ks[1..]);
      assert ks[0] == key ==> key !in ks[1..];
      assert key in ks <==> key == ks[0] || key in ks[1..];
      AddedUnderInsert(m, ks[1..], key, value);
    }
  }

  lemma AllAddedInsert(m: map<string, string>, key: string, value: string)
    requires key !in m
    ensures AllAdded(m[key := value]) == AllAdded(m) + Added(key, value)
  {
    AddedUnderInsert(m, ADDING_KEYS, key, value);
    if key !in ADDING_KEYS {
      AddedOnlyByAddingKeys(key, value);
    }
  }

  lemma {:induction false} AddedUnderLacksAutolink(m: map<string, string>, ks: seq<string>)
    requires PROFILE_AUTOLINK !in ks
    ensures AddedUnder(m, ks)[AUTOLINK_FILTER] == 0
  {
    if ks != [] {
      assert HookOwner(AUTOLINK_FILTER.hook) == Some(PROFILE_AUTOLINK);
      if ks[0] in m {
        AddedOwnHooks(ks[0], m[ks[0]]);
      }
      AddedUnderLacksAutolink(m, ks[1..]);
    }
  }

  lemma {:induction false} AddedUnderNothing(ks: seq<string>)
    ensures AddedUnder(map[], ks) == multiset{}
  {
    if ks != [] {
      AddedUnderNothing(ks[1..]);
    }
  }

  /** Removing the auto-link filter commutes with adding registrations that do not include it. */
  lemma RemoveCommutesWithAdd(f: Registry, a: Registry, b: Registry)
    requires a[AUTOLINK_FILTER] == 0
    ensures (f + a)[AUTOLINK_FILTER := 0] + b == f[AUTOLINK_FILTER := 0] + (a + b)
  {
  }

  /**
   * With distinct keys, the activator's result is the starting registry,
   * less the auto-link filter if that option is "on", plus everything the
   * options add: it depends on the option pairs only through their map.
   */
  lemma {:induction false} IncludedClosedForm(f: Registry, opts: OptionPairs)
    requires DistinctKeys(opts)
    ensures IncludedFilters(f, opts) == Stripped(f, ToMap(opts)) + AllAdded(ToMap(opts))
  {
    if opts == [] {
      AddedUnderNothing(ADDING_KEYS);
    } else {
      var init, last := opts[..|opts| - 1], opts[|opts| - 1];
      LastKeyFresh(opts);
      IncludedClosedForm(f, init);
      var m := ToMap(init);
      var before := IncludedFilters(f, init);
      assert IncludedFilters(f, opts) == ApplyIncluded(before, last.0, last.1);
      StepIsRemoveThenAdd(before, last.0, last.1);
      AllAddedInsert(m, last.0, last.1);
      if Removes(last.0, last.1) {
        assert Stripped(f, m) == f;
        AddedUnderLacksAutolink(m, ADDING_KEYS);
        RemoveCommutesWithAdd(f, AllAdded(m), Added(last.0, last.1));
      } else {
        assert Stripped(f, m[last.0 := last.1]) == Stripped(f, m);
      }
    }
  }

  /** The order in which the options are stored does not change the registry the activator leaves. */
  lemma IncludedOrderIrrelevant(f: Registry, o1: OptionPairs, o2: OptionPairs)
    requires DistinctKeys(o1) && DistinctKeys(o2)
    requires multiset(o1) == multiset(o2)
    ensures IncludedFilters(f, o1) == IncludedFilters(f, o2)
  {
    SamePairsSameMap(o1, o2);
    IncludedClosedForm(f, o1);
    IncludedClosedForm(f, o2);
  }

  // ---------------------------------------------------------------------
  // What each option does to a whole pass.

  /** The count of one registration among everything the options add comes from the option owning its hook. */
  lemma {:induction false} AddedUnderCount(m: map<string, string>, ks: seq<string>, x: Filter)
    requires Distinct(ks)
    ensures AddedUnder(m, ks)[x] ==
      if HookOwner(x.hook).Some? && HookOwner(x.hook).value in ks && HookOwner(x.hook).value in m
      then Added(HookOwner(x.hook).value, m[HookOwner(x.hook).value])[x] else 0
  {
    if ks != [] {
      assert Distinct(ks[1..]);
      assert HookOwner(x.hook) == Some(ks[0]) ==> ks[0] !in ks[1..];
      if ks[0] in m {
        AddedOwnHooks(ks[0], m[ks[0]]);
      }
      AddedUnderCount(m, ks[1..], x);
    }
  }

  lemma AllAddedCount(m: map<string, string>, x: Filter)
    ensures AllAdded(m)[x] ==
      if HookOwner(x.hook).Some? && HookOwner(x.hook).value in m
      then Added(HookOwner(x.hook).value, m[HookOwner(x.hook).value])[x] else 0
  {
    assert Distinct(ADDING_KEYS);
    AddedUnderCount(m, ADDING_KEYS, x);
    var owner := HookOwner(x.hook);
    if owner.Some? && owner.value in m && owner.value !in ADDING_KEYS {
      AddedOnlyByAddingKeys(owner.value, m[owner.value]);
    }
  }

  /**
   * With distinct keys, the count of any registration after the pass is its
   * count before (zero for the auto-link filter when that option is "on"),
   * plus what the one option owning its hook adds.
   */
  lemma IncludedCount(f: Registry, opts: OptionPairs, x: Filter)
    requires DistinctKeys(opts)
    ensures var m := ToMap(opts);
      IncludedFilters(f, opts)[x] ==
        (if x == AUTOLINK_FILTER && PROFILE_AUTOLINK in m && m[PROFILE_AUTOLINK] == ON then 0 else f[x])
        + (if HookOwner(x.hook).Some? && HookOwner(x.hook).value in m
           then Added(HookOwner(x.hook).value, m[HookOwner(x.hook).value])[x] else 0)
  {
    var m := ToMap(opts);
    IncludedClosedForm(f, opts);
    assert IncludedFilters(f, opts)[x] == Stripped(f, m)[x] + AllAdded(m)[x];
    assert Stripped(f, m)[x] ==
      if x == AUTOLINK_FILTER && PROFILE_AUTOLINK in m && m[PROFILE_AUTOLINK] == ON then 0 else f[x];
    AllAddedCount(m, x);
  }

  /** `user_mentions_checkbox = "on"` adds each of the two always-false mention filters once. */
  lemma UserMentionsAddsBoth(f: Registry, opts: OptionPairs)
    requires DistinctKeys(opts) && (USER_MENTIONS, ON) in opts
    ensures IncludedFilters(f, opts)[DO_MENTIONS_FILTER] == f[DO_MENTIONS_FILTER] + 1
    ensures IncludedFilters(f, opts)[MENTIONS_SCRIPTS_FILTER] == f[MENTIONS_SCRIPTS_FILTER] + 1
  {
    ToMapHoldsPairs(opts);
    IncludedCount(f, opts, DO_MENTIONS_FILTER);
    IncludedCount(f, opts, MENTIONS_SCRIPTS_FILTER);
  }

  /** ... and that step adds nothing else and removes nothing. */
  lemma UserMentionsAddsExactlyTwo(f: Registry)
    ensures ApplyIncluded(f, USER_MENTIONS, ON) - f == multiset{DO_MENTIONS_FILTER, MENTIONS_SCRIPTS_FILTER}
    ensures f <= ApplyIncluded(f, USER_MENTIONS, ON)
  {
    StepIsRemoveThenAdd(f, USER_MENTIONS, ON);
  }

  /** `profile_autolink_checkbox = "on"` leaves no auto-link filter at priority 9. */
  lemma ProfileAutolinkRemoves(f: Registry, opts: OptionPairs)
    requires DistinctKeys(opts) && (PROFILE_AUTOLINK, ON) in opts
    ensures IncludedFilters(f, opts)[AUTOLINK_FILTER] == 0
  {
    ToMapHoldsPairs(opts);
    IncludedCount(f, opts, AUTOLINK_FILTER);
    assert HookOwner(AUTOLINK_FILTER.hook) == Some(PROFILE_AUTOLINK);
  }

  /** ... and that step adds nothing: it only removes the auto-link filter. */
  lemma ProfileAutolinkAddsNothing(f: Registry, value: string)
    ensures ApplyIncluded(f, PROFILE_AUTOLINK, value) <= f
    ensures forall x :: x != AUTOLINK_FILTER ==> ApplyIncluded(f, PROFILE_AUTOLINK, value)[x] == f[x]
  {
  }

  /**
   * A checkbox option adds its filter once exactly when its stored value is
   * the string "on"; any other value adds nothing.
   */
  lemma CheckboxNeedsExactlyOn(f: Registry, opts: OptionPairs, key: string, x: Filter)
    requires DistinctKeys(opts)
    requires key in {USER_MENTIONS, ROOT_PROFILES, LDAP_USERNAME, WYSIWYG_EDITOR, DEPRECATED_CODE, ENABLE_MULTIBLOG}
    requires x in Added(key, ON)
    ensures IncludedFilters(f, opts)[x] == f[x] + (if (key, ON) in opts then 1 else 0)
  {
    ToMapHoldsPairs(opts);
    IncludedCount(f, opts, x);
    AddedOwnHooks(key, ON);
    assert HookOwner(x.hook) == Some(key);
    assert x != AUTOLINK_FILTER;
    assert Added(key, ON)[x] == 1;
    var m := ToMap(opts);
    if (key, ON) in opts {
      var i :| 0 <= i < |opts| && opts[i] == (key, ON);
      assert key in m && m[key] == ON;
    }
    if key in m {
      assert (key, m[key]) in opts;
    }
  }

  /** `root_blog_select` attaches the resolver once, whatever its stored value. */
  lemma RootBlogAttachesResolver(f: Registry, opts: OptionPairs, v: string)
    requires DistinctKeys(opts) && (ROOT_BLOG_SELECT, v) in opts
    ensures IncludedFilters(f, opts)[ROOT_BLOG_FILTER] == f[ROOT_BLOG_FILTER] + 1
  {
    ToMapHoldsPairs(opts);
    IncludedCount(f, opts, ROOT_BLOG_FILTER);
  }

  /** A second run registers the mention filters a second time: the pass is not idempotent. */
  lemma IncludedNotIdempotent(f: Registry, opts: OptionPairs)
    requires DistinctKeys(opts) && (USER_MENTIONS, ON) in opts
    ensures IncludedFilters(IncludedFilters(f, opts), opts)[DO_MENTIONS_FILTER] == f[DO_MENTIONS_FILTER] + 2
  {
    UserMentionsAddsBoth(f, opts);
    UserMentionsAddsBoth(IncludedFilters(f, opts), opts);
  }

  /** A pass whose options are all unrecognised leaves the registry as it was. */
  lemma {:induction false} UnrecognisedOptionsChangeNothing(f: Registry, opts: OptionPairs)
    requires forall i :: 0 <= i < |opts| ==> opts[i].0 !in INCLUDED_KEYS
    ensures IncludedFilters(f, opts) == f
  {
    if opts != [] {
      var init := opts[..|opts| - 1];
      assert forall i :: 0 <= i < |init| ==> init[i] == opts[i];
      UnrecognisedOptionsChangeNothing(f, init);
    }
  }
}
