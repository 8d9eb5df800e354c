# BuddyExtender configuration activation, modelled in Dafny

BuddyExtender is a WordPress plugin that adds a settings panel to BuddyPress.
It saves one option mapping, `bpext_options`. At run time it turns the saved
values into BuddyPress constants and filter registrations. This project models
the part of `loader.php` that has exact behaviour:

- **Constant-definition activator** (`bpextender_run_extended_settings`). It
  walks the options in storage order. It defines avatar-size, default-avatar
  and feature-switch constants, but only those not yet defined. It registers
  one filter for `avatar_default_image`.
- **Hook-time filter activator** (`bpextender_run_bp_included_settings`). The
  same walk attaches `__return_true`/`__return_false` overrides and the
  root-blog resolver to BuddyPress hooks. It can also remove BuddyPress's own
  profile auto-link filter.
- **Root-blog resolver** (`bpextender_filter_root_blog_id`). It returns the
  stored `root_blog_select` if there is one, otherwise its argument.
- **Autoloader name mapping** (`bpextender_autoload_classes` and the path
  built by `BuddyExtender::include_file`).
- **Magic getter** (`BuddyExtender::__get`). It allows four property names
  and throws for every other one.

Layout, one module per file:

| file | module | what it holds |
|---|---|---|
| wrappers.dfy | Wrappers | `Option`, `Result` |
| php_values.dfy | PhpValues | `Value` (Int, Str or Bool) and PHP's `(int)` cast of a string |
| options.dfy | Options | the options as a sequence of key/value pairs, lookup, the map they form |
| hooks.dfy | Hooks | the `Filter(hook, callback, priority)` registration |
| extended_settings.dfy | ExtendedSettings | the constant pass as a step function and a fold, and its properties |
| included_settings.dfy | IncludedSettings | the hook-time pass as a step function and a fold, and its properties |
| root_blog.dfy | RootBlog | the resolver |
| activators.dfy | Activators | class `Host` (constant table, filter registry) whose loop methods are proved against the folds |
| autoload.dfy | Autoload | class name to include path |
| plugin.dfy | Plugin | the magic getter |

The host is reduced to plain data. The saved options are a parameter of type
`seq<(string, string)>`, so the walk keeps PHP's `foreach` order. PHP's constant
table is a `map<string, Value>`, and `define`-if-not-`defined` is
insert-if-absent. The filter registry is a `multiset<Filter>` that counts
`add_filter` calls per `(hook, callback, priority)` triple. WordPress itself keeps
at most one registration per triple, so the count records calls, not host entries.
`Host.Define` requires that its name is still undefined. Every call from the
activator therefore verifies that no constant is ever defined twice.

Both passes are also given a closed form that does not depend on order. Each
recognised key owns a fixed set of constants or hooks that no other key touches
(`ExtendedSettings.Owner`, `IncludedSettings.HookOwner`). So with distinct keys,
which a PHP array always has, the result depends only on the map the option
pairs form. That is how the order-independence lemmas are proved.

## Model

| member | source | states |
|---|---|---|
| Autoload.AutoloadPath | loader.php:49-61 | None exactly when the class name does not start with `BuddyExtender_`, so the autoloader declines every other class |
| Autoload.AutoloadPathShape | loader.php:55-60 | a plugin class name maps to `classes/class-`, then its suffix with each `_` made `-` and A-Z lower-cased, character by character, then `.php` |
| Autoload.IncludePath | loader.php:296 | the path is `classes/class-`, then the file name unchanged, then `.php` |
| Autoload.Hyphenate | loader.php:55-57 | same length; every `_` becomes `-`, every other character is kept |
| Autoload.Lower | loader.php:55 | same length; each character lower-cased (ASCII letters only) |
| Autoload.FileSlug | loader.php:55-58 | the file name has the suffix's length, and each character is the suffix's character with `_` made `-` and A-Z lower-cased |
| Autoload.FileSlugIsClean | loader.php:55 | a file name derived from any suffix holds no `_` and no upper-case letter |
| Autoload.FileSlugIdempotent | loader.php:55-58 | deriving a file name from a derived file name changes nothing |
| Autoload.SameFileIff | loader.php:49-61 | two plugin class names load the same file if and only if they have the same length and their suffixes agree character by character once `_` is read as `-` and case is ignored |
| PhpValues.ToInt | loader.php:369 | a string of decimal digits casts to the number it spells ("" to 0) |
| PhpValues.DecimalRoundTrip | loader.php:369 | casting the decimal spelling of any natural number with `(int)` gives the number back (no 64-bit saturation) |
| PhpValues.NegativeDecimalRoundTrip | loader.php:369 | a leading `-` negates the cast (no 64-bit saturation) |
| PhpValues.ToIntIgnoresTrailing | loader.php:369 | the cast reads the leading digits and ignores whatever non-digit text follows them (an exponent such as `e2` is read as plain text) |
| PhpValues.NonNumericIsZero | loader.php:369 | a string with no leading sign, space or digit casts to 0 (a leading `.` with an exponent, such as `.5e1`, is not read as a number) |
| Options.Lookup | loader.php:430-431 | None exactly when no pair has the key; a found value is stored under the key; with distinct keys it is the value stored |
| Options.ToMapHoldsPairs | loader.php:365 | with distinct keys, the map formed by the options holds exactly their pairs |
| Options.SamePairsSameMap | loader.php:365 | two option sequences with the same pairs in any order form the same map |
| RootBlog.FilterRootBlogId | loader.php:428-434 | the argument unchanged when `root_blog_select` is absent; otherwise the stored string, uncast |
| RootBlog.ResolveExamples | loader.php:428-434 | 42 resolves to 42 with no stored choice and to "7" with `root_blog_select = "7"` |
| ExtendedSettings.DefineIfAbsent | loader.php:368-373 | the name ends up bound to its old value if it had one, else to the new value; no other binding changes |
| ExtendedSettings.ApplyExtended | loader.php:366-414 | one `switch` step: keeps every existing constant, adds only constants its key owns, and changes nothing for an unrecognised key |
| ExtendedSettings.Wanted | loader.php:366-414 | each option asks only for constants that it owns |
| ExtendedSettings.ExtendedFiltersFor | loader.php:388-389 | one iteration registers at most one filter, always the no-avatar-service one, and registers it exactly for `avatar_default_image` |
| ExtendedSettings.ExtendedFilters | loader.php:365-415 | the pass registers only the no-avatar-service filter, at most once per option |
| ExtendedSettings.ExtendedConstantsKeys | loader.php:365-415 | the fold `ExtendedConstants` keeps every defined name and defines no name outside the ten constants the pass knows |
| ExtendedSettings.StepIsInsertAbsent | loader.php:366-414 | one step is insert-if-absent of what that option asks for |
| ExtendedSettings.ExtendedClosedForm | loader.php:365-415 | with distinct keys, the pass equals insert-if-absent of everything the option map asks for |
| ExtendedSettings.ExtendedFiltersClosedForm | loader.php:388-389 | with distinct keys, the pass registers the no-avatar-service filter once if `avatar_default_image` is stored, else nothing |
| ExtendedSettings.ExtendedOrderIrrelevant | loader.php:365-415 | permuting distinct-key options changes neither the constants nor the filters |
| ExtendedSettings.FirstWriteWins | loader.php:368-411 | every constant defined before the pass keeps its value |
| ExtendedSettings.ExtendedDefinesAllWanted | loader.php:365-415 | after the pass, every constant any option asked for is defined |
| ExtendedSettings.ExtendedNoOpWhenDefined | loader.php:365-415 | a pass whose requested constants are all defined leaves the table unchanged |
| ExtendedSettings.ExtendedIdempotent | loader.php:358-417 | running the pass twice leaves every constant at its first-set value |
| ExtendedSettings.ExtendedFiltersNotIdempotent | loader.php:389 | a second run makes the no-avatar-service `add_filter` call a second time (a count of calls; see Left out) |
| ExtendedSettings.UnrecognisedOptionsChangeNothing | loader.php:366-414 | options with no recognised key define nothing and register nothing (keys compared as strings; see Left out) |
| ExtendedSettings.OptionDefinesItsOwn | loader.php:366-414 | among the still-undefined constants an option owns, it defines exactly those it asks for, with those values |
| ExtendedSettings.NoOptionNoConstant | loader.php:366-414 | an undefined constant whose owning key is absent stays undefined |
| ExtendedSettings.ThumbSizeSharesOneValue | loader.php:367-374 | `avatar_thumb_size_select = v` defines thumbnail width and height, both as `(int) v` |
| ExtendedSettings.FullSizeSharesOneValue | loader.php:375-382 | `avatar_full_size_select = v` defines full width and height, both as `(int) v` |
| ExtendedSettings.MaxSizeSetsOnlyOriginalMax | loader.php:383-387 | `avatar_max_size_select` adds exactly `BP_AVATAR_ORIGINAL_MAX_WIDTH`, as `(int) v` when it was undefined |
| ExtendedSettings.DefaultImageStoredAsString | loader.php:388-396 | `avatar_default_image = v` defines both default-avatar constants as the string v and registers the filter whatever was defined before |
| ExtendedSettings.CheckboxNeedsExactlyOn | loader.php:398-413 | a checkbox's undefined constant is defined, as `true`, if and only if the stored value is exactly "on" |
| ExtendedSettings.CheckboxWanted | loader.php:398-413 | a checkbox asks for its constant exactly when its value is "on", and asks for `true` |
| ExtendedSettings.ThumbSizeFifty | loader.php:367-374 | `{avatar_thumb_size_select: "50"}` defines both thumbnail constants as the integer 50 |
| IncludedSettings.ApplyIncluded | loader.php:449-490 | one `switch` step is a no-op for an unrecognised key and for a checkbox whose value is not exactly "on"; `root_blog_select` adds one resolver registration whatever its value |
| IncludedSettings.StepTouchesOwnHooksOnly | loader.php:449-490 | one `switch` step changes the count of no registration on a hook its key does not own |
| IncludedSettings.AddedOwnHooks | loader.php:455-489 | each option adds only registrations on hooks it owns |
| IncludedSettings.StepIsRemoveThenAdd | loader.php:449-490 | one step removes the auto-link filter if `profile_autolink_checkbox` is "on", then adds what the option adds |
| IncludedSettings.IncludedOnlyRemovesAutolink | loader.php:448-491 | the fold `IncludedFilters` over any options removes nothing but the auto-link filter and never adds that filter |
| IncludedSettings.IncludedClosedForm | loader.php:448-491 | with distinct keys, the pass equals the start registry, less the auto-link filter when that option is "on", plus everything the option map adds |
| IncludedSettings.IncludedOrderIrrelevant | loader.php:448-491 | permuting distinct-key options leaves the same registry |
| IncludedSettings.IncludedCount | loader.php:448-491 | each triple's count after the pass is its old count (0 for the removed auto-link filter) plus the `add_filter` calls its hook's owner makes |
| IncludedSettings.UserMentionsAddsBoth | loader.php:455-460 | `user_mentions_checkbox = "on"` adds one of each always-false mention filter |
| IncludedSettings.UserMentionsAddsExactlyTwo | loader.php:455-460 | that step adds exactly those two registrations and removes nothing |
| IncludedSettings.ProfileAutolinkRemoves | loader.php:450-454 | `profile_autolink_checkbox = "on"` leaves no `xprofile_filter_link_profile_data` at priority 9 |
| IncludedSettings.ProfileAutolinkAddsNothing | loader.php:450-454 | that step adds nothing and changes no other registration |
| IncludedSettings.CheckboxNeedsExactlyOn | loader.php:455-486 | a checkbox's filter is added once if and only if its stored value is exactly "on" |
| IncludedSettings.RootBlogAttachesResolver | loader.php:487-489 | `root_blog_select` attaches the resolver once, whatever its value |
| IncludedSettings.IncludedNotIdempotent | loader.php:441-493 | a second run makes the mention `add_filter` call again (a count of calls; see Left out) |
| IncludedSettings.UnrecognisedOptionsChangeNothing | loader.php:449-490 | options with no recognised key leave the registry unchanged (keys compared as strings; see Left out) |
| Activators.Host.Define | loader.php:369 | binds a not-yet-defined name and changes nothing else |
| Activators.Host.AddFilter | loader.php:389 | adds one registration and changes nothing else |
| Activators.Host.RemoveFilter | loader.php:452 | the registration is gone afterwards; nothing else changes |
| Activators.Host.ExtendedSwitch | loader.php:366-414 | the new state is one `ApplyExtended` step on the constants, plus that key's filters |
| Activators.Host.RunExtendedSettings | loader.php:358-417 | constants become the fold of the step over the options, and filters gain what the pass registers; no existing constant changes, and no constant is defined twice |
| Activators.Host.IncludedSwitch | loader.php:449-490 | the new registry is one `ApplyIncluded` step on the old one; constants do not change |
| Activators.Host.RunBpIncludedSettings | loader.php:441-493 | the registry becomes the fold of the step over the options; constants do not change |
| Plugin.MagicGet | loader.php:274-285 | succeeds exactly for `version`, `basename`, `url` and `path`, returning the version or the stored field; otherwise fails with the invalid-property message |

## Left out

- WordPress and PHP host calls are not modelled, because they are foreign code: `get_option`, `add_action`, `spl_autoload_register`, `register_activation_hook`, `plugin_basename`, `plugin_dir_url`/`plugin_dir_path`, `trailingslashit`, `flush_rewrite_rules`, `load_plugin_textdomain`, `wp_register_style`, `deactivate_plugins`, `admin_url`, `__`. The saved options are a parameter, and the constant table and filter registry are fields of `Host`.
- The option mapping is assumed to be an array. A non-array value from `get_option` is not modelled.
- Hook timing is lifecycle wiring and is not modelled: which event fires each pass (`init`, `bp_include`, `plugins_loaded`; loader.php:346, 418, 494).
- Filesystem work is not modelled: `file_exists`, `include_once`, `require_once`, the CMB2 loading in `load_libs` and `includes`. Only the relative path is modelled, not the absolute one `dir()` prefixes. The include's return value is not modelled.
- The requirement check and admin notice are not modelled, because they are a host presence test and HTML output: `check_requirements`, `meets_requirements`, `requirements_not_met_notice`, `deactivate_me`.
- The singleton, constructor and static path caches depend only on host paths and are not modelled: `get_instance`, `buddyextender`, `__construct`, `dir`, `url`, `hooks`, `init`, `scripts`, `_activate`. `Plugin.PluginInfo` stands in for the three stored paths.
- PhpValues.ToInt: models PHP's `(int)` string cast as leading white space, an optional sign and the longest run of leading decimal digits. Exponent forms such as "1e3" are not modelled (PHP reads those as 1000). 64-bit overflow is not modelled either.
- PhpValues.DecimalRoundTrip: holds for unbounded integers. PHP saturates a cast beyond the 64-bit range, so for such numbers the round trip does not hold in PHP.
- PhpValues.NegativeDecimalRoundTrip: holds for unbounded integers, with the same 64-bit caveat.
- PhpValues.ToIntIgnoresTrailing: inherits the `ToInt` bound above. PHP reads `"5e2"` as 500, not 5.
- PhpValues.NonNumericIsZero: inherits the `ToInt` bound above. PHP reads `".5e1"` as 5, not 0.
- Autoload.Lower: models `strtolower` for ASCII letters only, as in the C locale. Locale-dependent case mapping is not modelled.
- The filter registry is a multiset of `(hook, callback, priority)` triples that counts `add_filter` calls. WordPress stores a string callback under an id built from its name within its priority, so a repeated `add_filter` overwrites one slot and leaves one registration. `ExtendedSettings.ExtendedFiltersNotIdempotent`, `IncludedSettings.IncludedNotIdempotent` and the counts in `IncludedSettings.IncludedCount` for a triple already present therefore describe calls, not the host's table. `remove_filter` deletes every copy of its triple. The accepted-argument count and the boolean results of `add_filter`/`remove_filter` are not modelled.
- ExtendedSettings.ApplyExtended: option keys are compared as strings, as PHP 8 does. The plugin allows PHP 7.4 (loader.php:20). There, a stored key `"0"` becomes the integer key 0, and the loose `switch` comparison `0 == 'avatar_thumb_size_select'` holds. So under PHP 7 key 0 takes the first case of each pass: it defines both thumbnail constants from `(int)` of its value (loader.php:367-373), and it removes the auto-link filter when its value is "on" (loader.php:450-453). The model and both `UnrecognisedOptionsChangeNothing` lemmas treat that key as unrecognised.
- IncludedSettings.ApplyIncluded: compares keys as strings too, so it misses the PHP 7 match of key 0 described on the line above.
- Each loop step uses the value paired with the key in place of `$options[$key]`. The two agree because a PHP array never repeats a key. The lemmas that need this require `DistinctKeys`.
- Activators.Host.Define: PHP only warns when `define` is called on a name that is already defined. The model makes that call a precondition instead, so the warning path is not represented. The precondition is met at every call site.
- The `switch` body of each pass is its own method (`ExtendedSwitch`, `IncludedSwitch`), called once per iteration, so that each loop proof stays small. The statements inside it are the source's, in the source's order.
