/**
 * The plugin object's read-only properties, as its magic getter exposes
 * them: the version constant and three paths fixed at construction.
 */
module Plugin {
  import opened Wrappers

  const VERSION := "1.1.0"

  /** The host-derived paths the constructor stores. */
  datatype PluginInfo = PluginInfo(basename: string, url: string, path: string)

  /** The message of the exception thrown for any other property name. */
  function InvalidPropertyMessage(field: string): string {
    "Invalid BuddyExtender property: " + field
  }

  /** `__get( field )`: one of the four documented properties, or an exception. */
  function MagicGet(info: PluginInfo, field: string): (r: Result<string, string>)
    ensures r.Success? <==> field in {"version", "basename", "url", "path"}
    ensures field == "version" ==> r == Success(VERSION)
    ensures field == "basename" ==> r == Success(info.basename)
    ensures field == "url" ==> r == Success(info.url)
    ensures field == "path" ==> r == Success(info.path)
    ensures r.Failure? ==> r.error == InvalidPropertyMessage(field)
  {
    if field == "version" then Success(VERSION)
    else if field == "basename" then Success(info.basename)
    else if field == "url" then Success(info.url)
    else if field == "path" then Success(info.path)
    else Failure(InvalidPropertyMessage(field))
  }

}
