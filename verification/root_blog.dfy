/**
 * The root-blog resolver (`bpextender_filter_root_blog_id`), the callback
 * BuddyPress consults for the id of the authoritative site.
 */
module RootBlog {
  import opened Wrappers
  import opened PhpValues
  import opened Options

  /** The option holding the chosen root blog. */
  const ROOT_BLOG_SELECT := "root_blog_select"

  /** The name under which the resolver is registered as a filter callback. */
  const RESOLVER_CALLBACK := "bpextender_filter_root_blog_id"

  /**
   * The stored `root_blog_select` value, uncast, when the option is set;
   * otherwise the id BuddyPress passed in, unchanged.
   */
  function FilterRootBlogId(opts: OptionPairs, rootBlog: Value): (r: Value)
    ensures !HasKey(opts, ROOT_BLOG_SELECT) ==> r == rootBlog
    ensures HasKey(opts, ROOT_BLOG_SELECT) ==> r.Str? && (ROOT_BLOG_SELECT, r.s) in opts
    ensures DistinctKeys(opts) ==> forall v :: (ROOT_BLOG_SELECT, v) in opts ==> r == Str(v)
  {
    match Lookup(opts, ROOT_BLOG_SELECT)
    case Some(v) => Str(v)
    case None => rootBlog
  }

  /** With no stored choice, 42 resolves to 42; with `root_blog_select = "7"`, to "7". */
  lemma ResolveExamples()
    ensures FilterRootBlogId([], Int(42)) == Int(42)
    ensures FilterRootBlogId([(ROOT_BLOG_SELECT, "7")], Int(42)) == Str("7")
  {
    assert (ROOT_BLOG_SELECT, "7") in [(ROOT_BLOG_SELECT, "7")];
  }
}
