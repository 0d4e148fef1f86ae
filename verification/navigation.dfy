/** `utils/navigation.py`: which page the query parameters name, and the
navigation radio's bookkeeping of the current page in session state. */
module Navigation {
  import opened Wrappers

  datatype Page = Home | Tracker | Applications {
    /** The radio button's label of the page. */
    function Label(): string
    {
      match this
      case Home => "\U{1F3E0} Home"
      case Tracker => "\U{1F4CA} Tracker"
      case Applications => "\U{1F4DD} Applications"
    }
  }

  /** The radio button's options, in order. */
  const NavOptions: seq<string> := [Home.Label(), Tracker.Label(), Applications.Label()]

  /** `get_current_page_name`, by page: "tracker" wins over
  "applications", and neither means home. */
  function CurrentPage(params: set<string>): (p: Page)
    ensures p == Tracker <==> "tracker" in params
    ensures p == Applications <==> "tracker" !in params && "applications" in params
    ensures p == Home <==> "tracker" !in params && "applications" !in params
  {
    if "tracker" in params then Tracker
    else if "applications" in params then Applications
    else Home
  }

  /** `get_current_page_name`. */
  function CurrentPageName(params: set<string>): string
  {
    CurrentPage(params).Label()
  }

  /** The first position of `name` among the options, as `list.index`. */
  function IndexOf(options: seq<string>, name: string): (i: Option<nat>)
    ensures i.Some? ==> i.value < |options| && options[i.value] == name
    ensures i.Some? ==> forall k :: 0 <= k < i.value ==> options[k] != name
    ensures i.None? ==> name !in options
  {
    if options == [] then None
    else if options[0] == name then Some(0)
    else match IndexOf(options[1..], name)
      case None => None
      case Some(k) => Some(k + 1)
  }

  /** The radio button's initial index is always defined: the page the
  parameters name is one of the options, at the position of its page. */
  lemma {:induction false} IndexAlwaysDefined(params: set<string>)
    ensures IndexOf(NavOptions, CurrentPageName(params)).Some?
    ensures IndexOf(NavOptions, CurrentPageName(params)).value
            == match CurrentPage(params) case Home => 0 case Tracker => 1 case Applications => 2
  {
    var labels := NavOptions;
    assert labels[0][0] == '\U{1F3E0}' && labels[1][0] == '\U{1F4CA}' && labels[2][0] == '\U{1F4DD}';
    match CurrentPage(params)
    case Home =>
      assert IndexOf(labels, labels[0]) == Some(0);
    case Tracker =>
      assert labels[1..][0] == labels[1];
      assert IndexOf(labels[1..], labels[1]) == Some(0);
    case Applications =>
      assert labels[1..][1..][0] == labels[2];
      assert labels[1..][0] != labels[2];
      assert IndexOf(labels[1..][1..], labels[2]) == Some(0);
  }

  /** The part of `render_nav` that follows the selection: the session's
  current page afterwards, and whether the script reruns. */
  function SyncCurrentPage(current: Option<string>, nav: string): (r: (Option<string>, bool))
    ensures r.0 == Some(nav)
    ensures r.1 <==> current != Some(nav)
  {
    if current != Some(nav) then (Some(nav), true) else (current, false)
  }

  /** After one sync, the rerun with the same selection settles: nothing is
  written and nothing reruns. */
  lemma SyncSettles(current: Option<string>, nav: string)
    ensures var (after, _) := SyncCurrentPage(current, nav);
            SyncCurrentPage(after, nav) == (after, false)
  {
  }
}
