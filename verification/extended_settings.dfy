/**
 * The constant-definition activator (`bpextender_run_extended_settings`),
 * as functions over the constant table: one step per option pair, and the
 * whole `foreach` as a left fold in storage order. Each recognised option
 * defines only the constants it owns and only when they are not defined yet.
 */
module ExtendedSettings {
  import opened Wrappers
  import opened PhpValues
  import opened Options
  import opened Hooks

  type Constants = map<string, Value>

  // Option keys read by this pass.
  const THUMB_SIZE := "avatar_thumb_size_select"
  const FULL_SIZE := "avatar_full_size_select"
  const MAX_SIZE := "avatar_max_size_select"
  const DEFAULT_IMAGE := "avatar_default_image"
  const COVER_IMAGE := "cover_image_checkbox"
  const GROUP_AUTO_JOIN := "group_auto_join_checkbox"
  const ALL_AUTOCOMPLETE := "all_autocomplete_checkbox"

  const EXTENDED_KEYS := {THUMB_SIZE, FULL_SIZE, MAX_SIZE, DEFAULT_IMAGE, COVER_IMAGE, GROUP_AUTO_JOIN, ALL_AUTOCOMPLETE}

  // BuddyPress constants this pass may define.
  const THUMB_WIDTH := "BP_AVATAR_THUMB_WIDTH"
  const THUMB_HEIGHT := "BP_AVATAR_THUMB_HEIGHT"
  const FULL_WIDTH := "BP_AVATAR_FULL_WIDTH"
  const FULL_HEIGHT := "BP_AVATAR_FULL_HEIGHT"
  const ORIGINAL_MAX_WIDTH := "BP_AVATAR_ORIGINAL_MAX_WIDTH"
  const AVATAR_DEFAULT := "BP_AVATAR_DEFAULT"
  const AVATAR_DEFAULT_THUMB := "BP_AVATAR_DEFAULT_THUMB"
  const DISABLE_CUSTOM_HEADER := "BP_DTHEME_DISABLE_CUSTOM_HEADER"
  const DISABLE_AUTO_GROUP_JOIN := "BP_DISABLE_AUTO_GROUP_JOIN"
  const MESSAGES_AUTOCOMPLETE_ALL := "BP_MESSAGES_AUTOCOMPLETE_ALL"

  const CONSTANT_NAMES := {THUMB_WIDTH, THUMB_HEIGHT, FULL_WIDTH, FULL_HEIGHT, ORIGINAL_MAX_WIDTH,
                           AVATAR_DEFAULT, AVATAR_DEFAULT_THUMB, DISABLE_CUSTOM_HEADER,
                           DISABLE_AUTO_GROUP_JOIN, MESSAGES_AUTOCOMPLETE_ALL}

  /** The filter `avatar_default_image` registers: never ask a remote avatar service. */
  const NO_GRAV_FILTER := Filter("bp_core_fetch_avatar_no_grav", "__return_true", DEFAULT_PRIORITY)

  /** The option key that governs each constant; no two keys share a constant. */
  function Owner(name: string): Option<string> {
    if name == THUMB_WIDTH || name == THUMB_HEIGHT then Some(THUMB_SIZE)
    else if name == FULL_WIDTH || name == FULL_HEIGHT then Some(FULL_SIZE)
    else if name == ORIGINAL_MAX_WIDTH then Some(MAX_SIZE)
    else if name == AVATAR_DEFAULT || name == AVATAR_DEFAULT_THUMB then Some(DEFAULT_IMAGE)
    else if name == DISABLE_CUSTOM_HEADER then Some(COVER_IMAGE)
    else if name == DISABLE_AUTO_GROUP_JOIN then Some(GROUP_AUTO_JOIN)
    else if name == MESSAGES_AUTOCOMPLETE_ALL then Some(ALL_AUTOCOMPLETE)
    else None
  }

  lemma OwnedNamesAreConstants(name: string)
    ensures Owner(name).Some? ==> name in CONSTANT_NAMES
  {
  }

  /** `if ( ! defined( name ) ) define( name, value )`. */
  function DefineIfAbsent(c: Constants, name: string, value: Value): (r: Constants)
    ensures name in r && r[name] == (if name in c then c[name] else value)
    ensures forall n :: n != name ==> (n in r <==> n in c) && (n in c ==> r[n] == c[n])
  {
    if name in c then c else c[name := value]
  }

  /** One iteration of the `foreach`: the `switch` on the option key. */
  function ApplyExtended(c: Constants, key: string, value: string): (r: Constants)
    ensures forall n :: n in c ==> n in r && r[n] == c[n]
    ensures forall n :: n in r && n !in c ==> Owner(n) == Some(key)
    ensures key !in EXTENDED_KEYS ==> r == c
  {
    if key == THUMB_SIZE then
      DefineIfAbsent(DefineIfAbsent(c, THUMB_WIDTH, Int(ToInt(value))), THUMB_HEIGHT, Int(ToInt(value)))
    else if key == FULL_SIZE then
      DefineIfAbsent(DefineIfAbsent(c, FULL_WIDTH, Int(ToInt(value))), FULL_HEIGHT, Int(ToInt(value)))
    else if key == MAX_SIZE then
      DefineIfAbsent(c, ORIGINAL_MAX_WIDTH, Int(ToInt(value)))
    else if key == DEFAULT_IMAGE then
      DefineIfAbsent(DefineIfAbsent(c, AVATAR_DEFAULT, Str(value)), AVATAR_DEFAULT_THUMB, Str(value))
    else if key == COVER_IMAGE then
      if value == ON && DISABLE_CUSTOM_HEADER !in c then c[DISABLE_CUSTOM_HEADER := Bool(true)] else c
    else if key == GROUP_AUTO_JOIN then
      if value == ON && DISABLE_AUTO_GROUP_JOIN !in c then c[DISABLE_AUTO_GROUP_JOIN := Bool(true)] else c
    else if key == ALL_AUTOCOMPLETE then
      if value == ON && MESSAGES_AUTOCOMPLETE_ALL !in c then c[MESSAGES_AUTOCOMPLETE_ALL := Bool(true)] else c
    else c
  }

  /** The filters one iteration registers: only `avatar_default_image` adds one, whatever is defined. */
  function ExtendedFiltersFor(key: string): (r: multiset<Filter>)
    ensures r[NO_GRAV_FILTER] == |r| <= 1
    ensures |r| == 1 <==> key == DEFAULT_IMAGE
  {
    if key == DEFAULT_IMAGE then multiset{NO_GRAV_FILTER} else multiset{}
  }

  /** The constant table after the `foreach` has visited `opts` in order. */
  function ExtendedConstants(c: Constants, opts: OptionPairs): Constants {
    if opts == [] then c
    else ApplyExtended(ExtendedConstants(c, opts[..|opts| - 1]), opts[|opts| - 1].0, opts[|opts| - 1].1)
  }

  /** The filters the `foreach` registers while visiting `opts`. */
  function ExtendedFilters(opts: OptionPairs): (r: multiset<Filter>)
    ensures r[NO_GRAV_FILTER] == |r| <= |opts|
  {
    if opts == [] then multiset{}
    else ExtendedFilters(opts[..|opts| - 1]) + ExtendedFiltersFor(opts[|opts| - 1].0)
  }

  // ---------------------------------------------------------------------
  // Reference definition: what each option asks for, independent of order.

  /** The constants one option pair asks to be defined, and their values. */
  function Wanted(key: string, value: string): (w: map<string, Value>)
    ensures forall n :: n in w ==> n in CONSTANT_NAMES && Owner(n) == Some(key)
  {
    if key == THUMB_SIZE then map[THUMB_WIDTH := Int(ToInt(value)), THUMB_HEIGHT := Int(ToInt(value))]
    else if key == FULL_SIZE then map[FULL_WIDTH := Int(ToInt(value)), FULL_HEIGHT := Int(ToInt(value))]
    else if key == MAX_SIZE then map[ORIGINAL_MAX_WIDTH := Int(ToInt(value))]
    else if key == DEFAULT_IMAGE then map[AVATAR_DEFAULT := Str(value), AVATAR_DEFAULT_THUMB := Str(value)]
    else if key == COVER_IMAGE && value == ON then map[DISABLE_CUSTOM_HEADER := Bool(true)]
    else if key == GROUP_AUTO_JOIN && value == ON then map[DISABLE_AUTO_GROUP_JOIN := Bool(true)]
    else if key == ALL_AUTOCOMPLETE && value == ON then map[MESSAGES_AUTOCOMPLETE_ALL := Bool(true)]
    else map[]
  }

  /** Insert-if-absent of a whole table: existing bindings win. */
  function InsertAbsent(c: Constants, w: map<string, Value>): (r: Constants)
    ensures r.Keys == c.Keys + w.Keys
    ensures forall n :: n in c ==> r[n] == c[n]
    ensures forall n :: n in w && n !in c ==> r[n] == w[n]
  {
    map n | n in c.Keys + w.Keys :: if n in c then c[n] else w[n]
  }

  /** Everything the options in `m` ask to be defined: each constant is asked for by its owner alone. */
  function Requested(m: map<string, string>): map<string, Value> {
    map n | n in CONSTANT_NAMES && Owner(n).Some? && Owner(n).value in m
                                && n in Wanted(Owner(n).value, m[Owner(n).value])
          :: Wanted(Owner(n).value, m[Owner(n).value])[n]
  }

  /** One step of the activator is insert-if-absent of what that option asks for. */
  lemma StepIsInsertAbsent(c: Constants, key: string, value: string)
    ensures ApplyExtended(c, key, value) == InsertAbsent(c, Wanted(key, value))
  {
    var n := Int(ToInt(value));
    if key == THUMB_SIZE {
      DefineTwiceIsInsertAbsent(c, THUMB_WIDTH, THUMB_HEIGHT, n);
    } else if key == FULL_SIZE {
      DefineTwiceIsInsertAbsent(c, FULL_WIDTH, FULL_HEIGHT, n);
    } else if key == MAX_SIZE {
      DefineOnceIsInsertAbsent(c, ORIGINAL_MAX_WIDTH, n);
    } else if key == DEFAULT_IMAGE {
      DefineTwiceIsInsertAbsent(c, AVATAR_DEFAULT, AVATAR_DEFAULT_THUMB, Str(value));
    } else if key == COVER_IMAGE || key == GROUP_AUTO_JOIN || key == ALL_AUTOCOMPLETE {
      if value == ON {
        DefineOnceIsInsertAbsent(c, if key == COVER_IMAGE then DISABLE_CUSTOM_HEADER
                                    else if key == GROUP_AUTO_JOIN then DISABLE_AUTO_GROUP_JOIN
                                    else MESSAGES_AUTOCOMPLETE_ALL, Bool(true));
      } else {
        assert Wanted(key, value) == map[];
        assert InsertAbsent(c, map[]) == c;
      }
    } else {
      assert Wanted(key, value) == map[];
      assert InsertAbsent(c, map[]) == c;
    }
  }

  lemma DefineOnceIsInsertAbsent(c: Constants, a: string, x: Value)
    ensures DefineIfAbsent(c, a, x) == InsertAbsent(c, map[a := x])
  {
  }

  lemma DefineTwiceIsInsertAbsent(c: Constants, a: string, b: string, x: Value)
    requires a != b
    ensures DefineIfAbsent(DefineIfAbsent(c, a, x), b, x) == InsertAbsent(c, map[a := x, b := x])
  {
  }

  lemma RequestedInsert(m: map<string, string>, key: string, value: string)
    requires key !in m
    ensures forall n :: n in Requested(m[key := value]) <==> n in Requested(m) || n in Wanted(key, value)
    ensures forall n :: n in Wanted(key, value) ==> n !in Requested(m) && Requested(m[key := value])[n] == Wanted(key, value)[n]
    ensures forall n :: n in Requested(m) ==> Requested(m[key := value])[n] == Requested(m)[n]
  {
  }

  /**
   * With distinct keys, the activator's result is the old table with
   * everything the options ask for inserted where absent: it depends on the
   * option pairs only through the map they form.
   */
  lemma {:induction false} ExtendedClosedForm(c: Constants, opts: OptionPairs)
    requires DistinctKeys(opts)
    ensures ExtendedConstants(c, opts) == InsertAbsent(c, Requested(ToMap(opts)))
  {
    if opts == [] {
      assert Requested(map[]) == map[];
    } else {
      var init, last := opts[..|opts| - 1], opts[|opts| - 1];
      LastKeyFresh(opts);
      ExtendedClosedForm(c, init);
      var m := ToMap(init);
      var before := ExtendedConstants(c, init);
      assert ExtendedConstants(c, opts) == ApplyExtended(before, last.0, last.1);
      StepIsInsertAbsent(before, last.0, last.1);
      RequestedInsert(m, last.0, last.1);
      InsertAbsentTwice(c, Requested(m), Wanted(last.0, last.1), Requested(m[last.0 := last.1]));
    }
  }

  /** Inserting `a` and then `b` where absent is inserting their disjoint union. */
  lemma InsertAbsentTwice(c: Constants, a: map<string, Value>, b: map<string, Value>, ab: map<string, Value>)
    requires forall n :: n in ab <==> n in a || n in b
    requires forall n :: n in a ==> ab[n] == a[n]
    requires forall n :: n in b ==> n !in a && ab[n] == b[n]
    ensures InsertAbsent(InsertAbsent(c, a), b) == InsertAbsent(c, ab)
  {
  }

  /** `avatar_default_image` registers the no-avatar-service filter once per occurrence; nothing else registers one. */
  lemma {:induction false} ExtendedFiltersClosedForm(opts: OptionPairs)
    requires DistinctKeys(opts)
    ensures ExtendedFilters(opts) == if DEFAULT_IMAGE in ToMap(opts) then multiset{NO_GRAV_FILTER} else multiset{}
  {
    if opts != [] {
      LastKeyFresh(opts);
      ExtendedFiltersClosedForm(opts[..|opts| - 1]);
    }
  }

  /** The order in which the options are stored does not change what the activator does. */
  lemma ExtendedOrderIrrelevant(c: Constants, o1: OptionPairs, o2: OptionPairs)
    requires DistinctKeys(o1) && DistinctKeys(o2)
    requires multiset(o1) == multiset(o2)
    ensures ExtendedConstants(c, o1) == ExtendedConstants(c, o2)
    ensures ExtendedFilters(o1) == ExtendedFilters(o2)
  {
    SamePairsSameMap(o1, o2);
    ExtendedClosedForm(c, o1);
    ExtendedClosedForm(c, o2);
    ExtendedFiltersClosedForm(o1);
    ExtendedFiltersClosedForm(o2);
  }

  /** First write wins: a constant defined before the pass keeps its value. */
  lemma {:induction false} FirstWriteWins(c: Constants, opts: OptionPairs)
    ensures forall n :: n in c ==> n in ExtendedConstants(c, opts) && ExtendedConstants(c, opts)[n] == c[n]
  {
    if opts != [] {
      FirstWriteWins(c, opts[..|opts| - 1]);
    }
  }

  /** The pass keeps every defined name and defines no name outside the ten it knows. */
  lemma {:induction false} ExtendedConstantsKeys(c: Constants, opts: OptionPairs)
    ensures c.Keys <= ExtendedConstants(c, opts).Keys <= c.Keys + CONSTANT_NAMES
  {
    if opts != [] {
      var init := opts[..|opts| - 1];
      ExtendedConstantsKeys(c, init);
      forall n | n in ExtendedConstants(c, opts)
        ensures n in c.Keys + CONSTANT_NAMES
      {
        OwnedNamesAreConstants(n);
      }
    }
  }

  /** After a pass, every constant any of its options asks for is defined. */
  lemma {:induction false} ExtendedDefinesAllWanted(c: Constants, opts: OptionPairs)
    ensures forall i, n :: 0 <= i < |opts| && n in Wanted(opts[i].0, opts[i].1) ==> n in ExtendedConstants(c, opts)
  {
    if opts != [] {
      var init := opts[..|opts| - 1];
      ExtendedDefinesAllWanted(c, init);
      StepIsInsertAbsent(ExtendedConstants(c, init), opts[|opts| - 1].0, opts[|opts| - 1].1);
      forall i, n | 0 <= i < |opts| - 1 && n in Wanted(opts[i].0, opts[i].1)
        ensures n in ExtendedConstants(c, opts)
      {
        assert opts[i] == init[i];
      }
    }
  }

  /** A pass whose every requested constant is already defined changes nothing. */
  lemma {:induction false} ExtendedNoOpWhenDefined(c: Constants, opts: OptionPairs)
    requires forall i, n :: 0 <= i < |opts| && n in Wanted(opts[i].0, opts[i].1) ==> n in c
    ensures ExtendedConstants(c, opts) == c
  {
    if opts != [] {
      var init := opts[..|opts| - 1];
      forall i, n | 0 <= i < |init| && n in Wanted(init[i].0, init[i].1)
        ensures n in c
      {
        assert init[i] == opts[i];
      }
      ExtendedNoOpWhenDefined(c, init);
      StepIsInsertAbsent(c, opts[|opts| - 1].0, opts[|opts| - 1].1);
    }
  }

  /** Running the activator a second time leaves every constant at its first value. */
  lemma ExtendedIdempotent(c: Constants, opts: OptionPairs)
    ensures ExtendedConstants(ExtendedConstants(c, opts), opts) == ExtendedConstants(c, opts)
  {
    ExtendedDefinesAllWanted(c, opts);
    ExtendedNoOpWhenDefined(ExtendedConstants(c, opts), opts);
  }

  /** ... but the no-avatar-service filter is registered again by the second run. */
  lemma ExtendedFiltersNotIdempotent(opts: OptionPairs)
    requires DistinctKeys(opts) && DEFAULT_IMAGE in ToMap(opts)
    ensures (ExtendedFilters(opts) + ExtendedFilters(opts))[NO_GRAV_FILTER] == 2
  {
    ExtendedFiltersClosedForm(opts);
  }

  /** A pass whose options are all unrecognised defines nothing and registers nothing. */
  lemma {:induction false} UnrecognisedOptionsChangeNothing(c: Constants, opts: OptionPairs)
    requires forall i :: 0 <= i < |opts| ==> opts[i].0 !in EXTENDED_KEYS
    ensures ExtendedConstants(c, opts) == c
    ensures ExtendedFilters(opts) == multiset{}
  {
    if opts != [] {
      var init := opts[..|opts| - 1];
      assert forall i :: 0 <= i < |init| ==> init[i] == opts[i];
      UnrecognisedOptionsChangeNothing(c, init);
    }
  }

  // ---------------------------------------------------------------------
  // What each option does to a whole pass.

  /**
   * An option defines, among the constants it owns that were not defined
   * before, exactly those it asks for, with the values it asks for.
   */
  lemma OptionDefinesItsOwn(c: Constants, opts: OptionPairs, key: string, value: string)
    requires DistinctKeys(opts) && (key, value) in opts
    ensures forall n :: Owner(n) == Some(key) && n !in c ==>
      && (n in ExtendedConstants(c, opts) <==> n in Wanted(key, value))
      && (n in Wanted(key, value) ==> ExtendedConstants(c, opts)[n] == Wanted(key, value)[n])
  {
    ExtendedClosedForm(c, opts);
    ToMapHoldsPairs(opts);
  }

  /** A constant whose owning option is not among the options stays undefined if it was. */
  lemma NoOptionNoConstant(c: Constants, opts: OptionPairs, n: string)
    requires DistinctKeys(opts) && n !in c
    requires Owner(n).None? || !HasKey(opts, Owner(n).value)
    ensures n !in ExtendedConstants(c, opts)
  {
    ExtendedClosedForm(c, opts);
    ToMapHoldsPairs(opts);
    if Owner(n).Some? && Owner(n).value in ToMap(opts) {
      var k := Owner(n).value;
      assert (k, ToMap(opts)[k]) in opts;
      assert HasKey(opts, k);
    }
  }

  /** `avatar_thumb_size_select = v` gives thumbnail width and height the same cast value. */
  lemma ThumbSizeSharesOneValue(c: Constants, opts: OptionPairs, v: string)
    requires DistinctKeys(opts) && (THUMB_SIZE, v) in opts
    requires THUMB_WIDTH !in c && THUMB_HEIGHT !in c
    ensures THUMB_WIDTH in ExtendedConstants(c, opts) && THUMB_HEIGHT in ExtendedConstants(c, opts)
    ensures ExtendedConstants(c, opts)[THUMB_WIDTH] == ExtendedConstants(c, opts)[THUMB_HEIGHT] == Int(ToInt(v))
  {
    OptionDefinesItsOwn(c, opts, THUMB_SIZE, v);
  }

  /** `avatar_full_size_select = v` gives full-size width and height the same cast value. */
  lemma FullSizeSharesOneValue(c: Constants, opts: OptionPairs, v: string)
    requires DistinctKeys(opts) && (FULL_SIZE, v) in opts
    requires FULL_WIDTH !in c && FULL_HEIGHT !in c
    ensures FULL_WIDTH in ExtendedConstants(c, opts) && FULL_HEIGHT in ExtendedConstants(c, opts)
    ensures ExtendedConstants(c, opts)[FULL_WIDTH] == ExtendedConstants(c, opts)[FULL_HEIGHT] == Int(ToInt(v))
  {
    OptionDefinesItsOwn(c, opts, FULL_SIZE, v);
  }

  /** `avatar_max_size_select` defines the original-size limit and no other constant. */
  lemma MaxSizeSetsOnlyOriginalMax(c: Constants, v: string)
    ensures ApplyExtended(c, MAX_SIZE, v).Keys == c.Keys + {ORIGINAL_MAX_WIDTH}
    ensures ORIGINAL_MAX_WIDTH !in c ==> ApplyExtended(c, MAX_SIZE, v)[ORIGINAL_MAX_WIDTH] == Int(ToInt(v))
  {
  }

  /**
   * `avatar_default_image = v` stores the uncast string in both default
   * avatar constants and registers the no-avatar-service filter even when
   * those constants were already defined.
   */
  lemma DefaultImageStoredAsString(c: Constants, opts: OptionPairs, v: string)
    requires DistinctKeys(opts) && (DEFAULT_IMAGE, v) in opts
    ensures AVATAR_DEFAULT in ExtendedConstants(c, opts) && AVATAR_DEFAULT_THUMB in ExtendedConstants(c, opts)
    ensures AVATAR_DEFAULT !in c ==> ExtendedConstants(c, opts)[AVATAR_DEFAULT] == Str(v)
    ensures AVATAR_DEFAULT_THUMB !in c ==> ExtendedConstants(c, opts)[AVATAR_DEFAULT_THUMB] == Str(v)
    ensures ExtendedFilters(opts) == multiset{NO_GRAV_FILTER}
  {
    OptionDefinesItsOwn(c, opts, DEFAULT_IMAGE, v);
    FirstWriteWins(c, opts);
    ToMapHoldsPairs(opts);
    ExtendedFiltersClosedForm(opts);
  }

  /**
   * A checkbox option defines its boolean constant exactly when its stored
   * value is the string "on"; any other value leaves the constant undefined.
   */
  lemma CheckboxNeedsExactlyOn(c: Constants, opts: OptionPairs, key: string, name: string)
    requires DistinctKeys(opts)
    requires key == COVER_IMAGE || key == GROUP_AUTO_JOIN || key == ALL_AUTOCOMPLETE
    requires Owner(name) == Some(key) && name !in c
    ensures name in ExtendedConstants(c, opts) <==> (key, ON) in opts
    ensures name in ExtendedConstants(c, opts) ==> ExtendedConstants(c, opts)[name] == Bool(true)
  {
    CheckboxWanted(key, name);
    if HasKey(opts, key) {
      var i :| 0 <= i < |opts| && opts[i].0 == key;
      var v := opts[i].1;
      OptionDefinesItsOwn(c, opts, key, v);
      if (key, ON) in opts {
        PairUnique(opts, key, v, ON);
      }
    } else {
      NoOptionNoConstant(c, opts, name);
    }
  }

  /** A checkbox asks for its constant, as `true`, exactly when its value is "on". */
  lemma CheckboxWanted(key: string, name: string)
    requires key == COVER_IMAGE || key == GROUP_AUTO_JOIN || key == ALL_AUTOCOMPLETE
    requires Owner(name) == Some(key)
    ensures forall v :: name in Wanted(key, v) <==> v == ON
    ensures forall v :: name in Wanted(key, v) ==> Wanted(key, v)[name] == Bool(true)
  {
  }

  /** The saved value "50" for the thumbnail size defines both thumbnail constants as the integer 50. */
  lemma ThumbSizeFifty()
    ensures ExtendedConstants(map[], [(THUMB_SIZE, "50")])[THUMB_WIDTH] == Int(50)
    ensures ExtendedConstants(map[], [(THUMB_SIZE, "50")])[THUMB_HEIGHT] == Int(50)
  {
    assert Decimal(50) == "50";
    DecimalRoundTrip(50);
    assert [(THUMB_SIZE, "50")][..0] == [];
  }
}
