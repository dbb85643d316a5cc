/**
 * The application shell (App.tsx): which screen is shown, driven by the URL fragment, and the
 * navigation that writes the fragment.
 */
module App {
  import opened Opt
  import opened Text
  import opened Types
  import Db

  /** The four screens. */
  datatype Screen = List | Edit | View | Settings

  /** What a URL fragment asks for: a screen, the entry with a parsed id (`None` for NaN), or nothing. */
  datatype Route = Show(screen: Screen) | Lookup(id: Option<int>) | NoRoute

  /** The classification in `handleHashChange`. */
  function RouteOf(hash: string): (r: Route)
    ensures r == Show(List) <==> hash == "#list" || hash == ""
    ensures r == Show(Edit) <==> hash == "#edit"
    ensures r == Show(Settings) <==> hash == "#settings"
    ensures r != Show(View)
    ensures r.Lookup? <==> "#view/" <= hash
  {
    assert "#list"[1] != 'v' && "#edit"[1] != 'v' && "#settings"[1] != 'v';
    if hash == "#list" || hash == "" then Show(List)
    else if hash == "#edit" then Show(Edit)
    else if hash == "#settings" then Show(Settings)
    else if "#view/" <= hash then
      var parts := Split(hash, '/');
      Lookup(if |parts| >= 2 then ParseInt(parts[1]) else None)
    else NoRoute
  }

  /** The `entry` argument of `navigateTo`: left out, `null`, or an entry. */
  datatype EntryArg = Omitted | Null | Given(entry: DiaryEntry)

  /** `entry?.id || selectedEntry?.id`: the first id that is present and not 0. */
  function ViewId(arg: EntryArg, selected: Option<DiaryEntry>): (id: Option<int>)
    ensures id.Some? ==> id.value != 0
    ensures arg.Given? && arg.entry.id.Some? && arg.entry.id.value != 0 ==> id == arg.entry.id
    ensures (!(arg.Given? && arg.entry.id.Some? && arg.entry.id.value != 0) &&
      selected.Some? && selected.value.id.Some? && selected.value.id.value != 0) ==> id == selected.value.id
    ensures id.None? <==>
      !(arg.Given? && arg.entry.id.Some? && arg.entry.id.value != 0) &&
      !(selected.Some? && selected.value.id.Some? && selected.value.id.value != 0)
  {
    if arg.Given? && arg.entry.id.Some? && arg.entry.id.value != 0 then arg.entry.id
    else if selected.Some? && selected.value.id.Some? && selected.value.id.value != 0 then selected.value.id
    else None
  }

  /** The fragment `navigateTo` writes, or `None` when it leaves the fragment alone. */
  function HashFor(screen: Screen, arg: EntryArg, selected: Option<DiaryEntry>): (h: Option<string>)
    ensures h.None? <==> screen == View && ViewId(arg, selected).None?
    ensures h.Some? ==> "#" <= h.value
  {
    match screen
    case List => Some("#list")
    case Edit => Some("#edit")
    case Settings => Some("#settings")
    case View =>
      var id := ViewId(arg, selected);
      if id.Some? then Some("#view/" + IntToString(id.value)) else None
  }

  /**
   * Navigation and routing agree: the fragment written for a screen is classified as that
   * screen, and the one written for an entry is classified as a lookup of that entry's id.
   */
  lemma RouteOfHashFor(screen: Screen, arg: EntryArg, selected: Option<DiaryEntry>)
    requires HashFor(screen, arg, selected).Some?
    ensures screen != View ==> RouteOf(HashFor(screen, arg, selected).value) == Show(screen)
    ensures screen == View ==> RouteOf(HashFor(screen, arg, selected).value) == Lookup(ViewId(arg, selected))
  {
    if screen == View {
      var id := ViewId(arg, selected).value;
      ViewHashRoundTrip(id);
    }
  }

  /**
   * `#view/<rest>` is a lookup of whatever `parseInt(rest)` gives: the fragment keeps only the
   * piece before any further slash, and `parseInt` stops at that slash anyway.
   */
  lemma ViewRoute(rest: string)
    ensures RouteOf("#view/" + rest) == Lookup(ParseInt(rest))
  {
    var hash := "#view/" + rest;
    assert "#view/" <= hash && hash[1] == 'v';
    assert hash == "#view" + ['/'] + rest;
    SplitAround("#view", rest, '/');
    SplitWithoutSeparator("#view", '/');
    var pieces := Split(rest, '/');
    assert Split(hash, '/') == ["#view"] + pieces;
    assert Split(hash, '/')[1] == pieces[0];
    JoinSplit(rest, '/');
    if |pieces| == 1 {
      assert rest == pieces[0];
    } else {
      assert rest == pieces[0] + ['/'] + Join(pieces[1..], '/');
      ParseIntStops(pieces[0], Join(pieces[1..], '/'));
    }
  }

  /** `#view/<id>` names the entry `id`. */
  lemma ViewHashRoundTrip(id: int)
    ensures RouteOf("#view/" + IntToString(id)) == Lookup(Some(id))
  {
    ViewRoute(IntToString(id));
    ParseIntToString(id);
  }

  /** The shell's state: the shown screen, the selected entry and the URL fragment. */
  class Shell {
    var screen: Screen
    var selected: Option<DiaryEntry>
    var hash: string

    /** The shell starts on the list with nothing selected, at whatever fragment the page was opened with. */
    constructor (initialHash: string)
      ensures screen == List && selected == None && hash == initialHash
    {
      screen, selected, hash := List, None, initialHash;
    }

    /**
     * `handleHashChange`. A lookup finds the entry in the store: then it is selected and
     * shown; if there is none, the fragment is reset to `#list`. An id that is not a number
     * makes the store's lookup fail, and nothing changes. An unknown fragment changes nothing.
     */
    method HandleHashChange(db: Db.Database)
      modifies this`screen, this`selected, this`hash
      ensures match RouteOf(old(hash))
        case Show(s) => screen == s && selected == old(selected) && hash == old(hash)
        case Lookup(Some(id)) =>
          if id in db.diaries then screen == View && selected == Some(db.diaries[id]) && hash == old(hash)
          else screen == old(screen) && selected == old(selected) && hash == "#list"
        case Lookup(None) => screen == old(screen) && selected == old(selected) && hash == old(hash)
        case NoRoute => screen == old(screen) && selected == old(selected) && hash == old(hash)
    {
      match RouteOf(hash) {
        case Show(s) =>
          screen := s;
        case Lookup(Some(id)) =>
          if id in db.diaries {
            selected := Some(db.diaries[id]);
            screen := View;
          } else {
            hash := "#list";
          }
        case Lookup(None) =>
        case NoRoute =>
      }
    }

    /**
     * `navigateTo`: a supplied entry argument (`null` included) becomes the selection; then the
     * fragment for the target screen is written. The id for an entry view is looked up in the
     * argument first and in the selection as it was before this call.
     */
    method NavigateTo(target: Screen, arg: EntryArg)
      modifies this`selected, this`hash
      ensures selected == match arg
        case Omitted => old(selected)
        case Null => None
        case Given(e) => Some(e)
      ensures hash == match HashFor(target, arg, old(selected))
        case Some(h) => h
        case None => old(hash)
    {
      var previous := selected;
      match arg {
        case Omitted =>
        case Null => selected := None;
        case Given(e) => selected := Some(e);
      }
      var h := HashFor(target, arg, previous);
      if h.Some? {
        hash := h.value;
      }
    }
  }
}
