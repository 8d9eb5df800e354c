/**
 * The two activators as the plugin runs them: loops over the saved options
 * that write, step by step, into the host's constant table and filter
 * registry. Each loop is proved to leave exactly the state the fold
 * functions of ExtendedSettings and IncludedSettings describe.
 */
module Activators {
  import opened PhpValues
  import opened Options
  import opened Hooks
  import opened ExtendedSettings
  import opened IncludedSettings
  import opened RootBlog

  /** The process-wide state the plugin writes: PHP's constants and WordPress's filters. */
  class Host {
    var constants: map<string, Value>
    var filters: multiset<Filter>

    constructor (constants0: map<string, Value>, filters0: multiset<Filter>)
      ensures constants == constants0 && filters == filters0
    {
      constants, filters := constants0, filters0;
    }

    /** `defined( name )`. */
    predicate Defined(name: string)
      reads this
    {
      name in constants
    }

    /** `define( name, value )`: defining a name twice is a PHP error, so callers check `defined` first. */
    method Define(name: string, value: Value)
      requires !Defined(name)
      modifies this
      ensures constants == old(constants)[name := value]
      ensures filters == old(filters)
    {
      constants := constants[name := value];
    }

    /** `add_filter( hook, callback, priority )`. */
    method AddFilter(hook: string, callback: string, priority: int)
      modifies this
      ensures filters == old(filters) + multiset{Filter(hook, callback, priority)}
      ensures constants == old(constants)
    {
      filters := filters + multiset{Filter(hook, callback, priority)};
    }

    /** `remove_filter( hook, callback, priority )`: that registration is gone afterwards. */
    method RemoveFilter(hook: string, callback: string, priority: int)
      modifies this
      ensures filters == old(filters)[Filter(hook, callback, priority) := 0]
      ensures constants == old(constants)
    {
      filters := filters[Filter(hook, callback, priority) := 0];
    }

    /**
     * `bpextender_run_extended_settings`: defines the BuddyPress constants the
     * options ask for, never redefining one, and registers the
     * no-avatar-service filter for `avatar_default_image`.
     */
    method RunExtendedSettings(options: OptionPairs)
      modifies this
      ensures constants == ExtendedConstants(old(constants), options)
      ensures filters == old(filters) + ExtendedFilters(options)
      ensures forall n :: n in old(constants) ==> n in constants && constants[n] == old(constants)[n]
    {
      if |options| == 0 {
        return;
      }
      ghost var constants0, filters0 := constants, filters;
      for i := 0 to |options|
        invariant constants == ExtendedConstants(constants0, options[..i])
        invariant filters == filters0 + ExtendedFilters(options[..i])
      {
        ExtendedSwitch(options[i].0, options[i].1);
        assert options[..i + 1][..i] == options[..i];
      }
      assert options[..|options|] == options;
      FirstWriteWins(constants0, options);
    }

    /** One pass of the `foreach` in `bpextender_run_extended_settings`: the `switch` on the key. */
    method ExtendedSwitch(key: string, value: string)
      modifies this
      ensures constants == ApplyExtended(old(constants), key, value)
      ensures filters == old(filters) + ExtendedFiltersFor(key)
    {
      if key == THUMB_SIZE {
        if !Defined(THUMB_WIDTH) {
          Define(THUMB_WIDTH, Int(ToInt(value)));
        }
        if !Defined(THUMB_HEIGHT) {
          Define(THUMB_HEIGHT, Int(ToInt(value)));
        }
      } else if key == FULL_SIZE {
        if !Defined(FULL_WIDTH) {
          Define(FULL_WIDTH, Int(ToInt(value)));
        }
        if !Defined(FULL_HEIGHT) {
          Define(FULL_HEIGHT, Int(ToInt(value)));
        }
      } else if key == MAX_SIZE {
        if !Defined(ORIGINAL_MAX_WIDTH) {
          Define(ORIGINAL_MAX_WIDTH, Int(ToInt(value)));
        }
      } else if key == DEFAULT_IMAGE {
        AddFilter(NO_GRAV_FILTER.hook, NO_GRAV_FILTER.callback, DEFAULT_PRIORITY);
        if !Defined(AVATAR_DEFAULT) {
          Define(AVATAR_DEFAULT, Str(value));
        }
        if !Defined(AVATAR_DEFAULT_THUMB) {
          Define(AVATAR_DEFAULT_THUMB, Str(value));
        }
      } else if key == COVER_IMAGE {
        if value == ON && !Defined(DISABLE_CUSTOM_HEADER) {
          Define(DISABLE_CUSTOM_HEADER, Bool(true));
        }
      } else if key == GROUP_AUTO_JOIN {
        if value == ON && !Defined(DISABLE_AUTO_GROUP_JOIN) {
          Define(DISABLE_AUTO_GROUP_JOIN, Bool(true));
        }
      } else if key == ALL_AUTOCOMPLETE {
        if value == ON && !Defined(MESSAGES_AUTOCOMPLETE_ALL) {
          Define(MESSAGES_AUTOCOMPLETE_ALL, Bool(true));
        }
      }
    }

    /**
     * `bpextender_run_bp_included_settings`: attaches or detaches the
     * BuddyPress filters the options ask for, and attaches the root-blog
     * resolver when `root_blog_select` is stored.
     */
    method RunBpIncludedSettings(options: OptionPairs)
      modifies this
      ensures filters == IncludedFilters(old(filters), options)
      ensures constants == old(constants)
    {
      if |options| == 0 {
        return;
      }
      ghost var filters0 := filters;
      for i := 0 to |options|
        invariant filters == IncludedFilters(filters0, options[..i])
        invariant constants == old(constants)
      {
        IncludedSwitch(options[i].0, options[i].1);
        assert options[..i + 1][..i] == options[..i];
      }
      assert options[..|options|] == options;
    }

    /** One pass of the `foreach` in `bpextender_run_bp_included_settings`: the `switch` on the key. */
    method IncludedSwitch(key: string, value: string)
      modifies this
      ensures filters == ApplyIncluded(old(filters), key, value)
      ensures constants == old(constants)
    {
      if key == PROFILE_AUTOLINK {
        if value == ON {
          RemoveFilter(PROFILE_FIELD_VALUE_HOOK, AUTOLINK_FILTER.callback, 9);
        }
      } else if key == USER_MENTIONS {
        if value == ON {
          AddFilter(DO_MENTIONS_HOOK, "__return_false", DEFAULT_PRIORITY);
          AddFilter(MENTIONS_SCRIPTS_HOOK, "__return_false", DEFAULT_PRIORITY);
        }
      } else if key == ROOT_PROFILES {
        if value == ON {
          AddFilter(ROOT_PROFILES_HOOK, "__return_true", DEFAULT_PRIORITY);
        }
      } else if key == LDAP_USERNAME {
        if value == ON {
          AddFilter(USERNAME_COMPATIBILITY_HOOK, "__return_true", DEFAULT_PRIORITY);
        }
      } else if key == WYSIWYG_EDITOR {
        if value == ON {
          AddFilter(RICHTEXT_HOOK, "__return_false", DEFAULT_PRIORITY);
        }
      } else if key == DEPRECATED_CODE {
        if value == ON {
          AddFilter(IGNORE_DEPRECATED_HOOK, "__return_true", DEFAULT_PRIORITY);
        }
      } else if key == ENABLE_MULTIBLOG {
        if value == ON {
          AddFilter(MULTIBLOG_HOOK, "__return_true", DEFAULT_PRIORITY);
        }
      } else if key == ROOT_BLOG_SELECT {
        AddFilter(ROOT_BLOG_ID_HOOK, RESOLVER_CALLBACK, DEFAULT_PRIORITY);
      }
    }
  }
}
