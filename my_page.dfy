/**
 * The settings page (components/MyPage.tsx): the profile and background settings it loads and
 * saves, the storage-folder choice and the label shown for it.
 */
module MyPage {
  import opened Opt
  import opened Seqs
  import opened Text
  import opened Types
  import Db

  // ---------------------------------------------------------------- the stored profile

  const UserNameKey: string := "user_name"
  const AvatarKey: string := "user_avatar"
  const PathKey: string := "sqlite_path"
  const BgValueKey: string := "default_bg_value"
  const BgIsImageKey: string := "bg_is_image"

  /** The five settings the page edits. */
  datatype Profile = Profile(userName: string, avatar: string, dbPath: string, bgValue: string, bgIsImage: bool)

  /** What each setting reads as when it was never saved. */
  const Defaults: Profile := Profile("ユーザー様", "🌸", "Documents/PinkDiary/Data/", "#ffffff", false)

  /** `loadSettings`: each of the five keys read with its default. */
  function ReadProfile(settings: map<string, SettingValue>): (p: Profile)
    ensures settings == map[] ==> p == Defaults
    ensures UserNameKey in settings && settings[UserNameKey].TextValue? ==> p.userName == settings[UserNameKey].text
    ensures UserNameKey !in settings ==> p.userName == Defaults.userName
    ensures AvatarKey in settings && settings[AvatarKey].TextValue? ==> p.avatar == settings[AvatarKey].text
    ensures AvatarKey !in settings ==> p.avatar == Defaults.avatar
    ensures PathKey in settings && settings[PathKey].TextValue? ==> p.dbPath == settings[PathKey].text
    ensures PathKey !in settings ==> p.dbPath == Defaults.dbPath
    ensures BgValueKey in settings && settings[BgValueKey].TextValue? ==> p.bgValue == settings[BgValueKey].text
    ensures BgValueKey !in settings ==> p.bgValue == Defaults.bgValue
    ensures BgIsImageKey in settings && settings[BgIsImageKey].FlagValue? ==> p.bgIsImage == settings[BgIsImageKey].flag
    ensures BgIsImageKey !in settings ==> p.bgIsImage == Defaults.bgIsImage
  {
    Profile(
      Db.TextSetting(settings, UserNameKey, Defaults.userName),
      Db.TextSetting(settings, AvatarKey, Defaults.avatar),
      Db.TextSetting(settings, PathKey, Defaults.dbPath),
      Db.TextSetting(settings, BgValueKey, Defaults.bgValue),
      Db.FlagSetting(settings, BgIsImageKey, Defaults.bgIsImage))
  }

  /** The settings table after `handleSave`'s five writes. */
  function WriteProfile(settings: map<string, SettingValue>, p: Profile): (r: map<string, SettingValue>)
    ensures ReadProfile(r) == p
    ensures r.Keys == settings.Keys + {UserNameKey, AvatarKey, PathKey, BgValueKey, BgIsImageKey}
    ensures forall k :: k in settings && k !in {UserNameKey, AvatarKey, PathKey, BgValueKey, BgIsImageKey} ==>
      r[k] == settings[k]
  {
    settings
      [UserNameKey := TextValue(p.userName)]
      [AvatarKey := TextValue(p.avatar)]
      [PathKey := TextValue(p.dbPath)]
      [BgValueKey := TextValue(p.bgValue)]
      [BgIsImageKey := FlagValue(p.bgIsImage)]
  }

  // ---------------------------------------------------------------- the storage folder

  const NoFolderLabel: string := "フォルダを選択"
  const DefaultFolderName: string := "選択したフォルダ"
  const StorageFolder: string := "DiaryStorage"
  const UnsetPathCaption: string := "未設定"

  function NonEmpty(s: string): bool {
    s != ""
  }

  /**
   * `dbPath.split('/').filter(Boolean).pop() || 'フォルダを選択'`: the last non-empty piece of
   * the path, or the fallback caption when every piece is empty.
   */
  function FolderLabel(dbPath: string): (caption: string)
    ensures caption != "" && '/' !in caption
    ensures dbPath == "" ==> caption == NoFolderLabel
    ensures (forall i :: 0 <= i < |Split(dbPath, '/')| ==> Split(dbPath, '/')[i] == "") ==>
      caption == NoFolderLabel
    ensures (exists i :: 0 <= i < |Split(dbPath, '/')| && Split(dbPath, '/')[i] != "") ==>
      LastKept(Split(dbPath, '/'), NonEmpty, caption)
  {
    var parts := Split(dbPath, '/');
    var segments := Filter(parts, NonEmpty);
    NonEmptyPieces(parts);
    if segments == [] then NoFolderLabel else segments[|segments| - 1]
  }

  /**
   * Filtering the pieces with `Boolean` leaves nothing exactly when every piece is empty;
   * otherwise what it leaves last is the last non-empty piece.
   */
  lemma NonEmptyPieces(parts: seq<string>)
    ensures Filter(parts, NonEmpty) == [] <==> forall i :: 0 <= i < |parts| ==> parts[i] == ""
    ensures Filter(parts, NonEmpty) != [] ==>
      var last := Filter(parts, NonEmpty)[|Filter(parts, NonEmpty)| - 1];
      last in parts && last != "" && LastKept(parts, NonEmpty, last)
  {
    var segments := Filter(parts, NonEmpty);
    if segments == [] {
      forall i | 0 <= i < |parts| ensures !NonEmpty(parts[i]) {
        assert parts[i] in parts;
      }
    } else {
      FilterLast(parts, NonEmpty);
      assert segments[|segments| - 1] in segments;
    }
  }

  /** The path line under the label: the path itself, or a placeholder when it is empty. */
  function PathCaption(dbPath: string): (caption: string)
    ensures caption != ""
    ensures dbPath != "" <==> caption == dbPath
    ensures dbPath == "" ==> caption == UnsetPathCaption
  {
    if dbPath != "" then dbPath else UnsetPathCaption
  }

  /** The storage path the page records for a chosen folder `name`. */
  function DevicePath(name: string): (path: string)
    ensures |path| == |name| + 21 && path[..7] == "Device/" && path[7..|path| - 14] == name
    ensures path[|path| - 14..] == "/DiaryStorage/"
    ensures FolderLabel(path) == StorageFolder
  {
    var path := "Device/" + name + "/DiaryStorage/";
    assert path[..7] == "Device/" && path[7..|path| - 14] == name;
    assert path[|path| - 14..] == "/DiaryStorage/";
    StorageLabel("Device/" + name);
    path
  }

  /** The segments of a path that ends in a folder name and a slash. */
  lemma FolderSegments(prefix: string, folder: string)
    requires '/' !in folder
    ensures Split(prefix + ['/'] + folder + ['/'], '/') == Split(prefix, '/') + [folder, ""]
  {
    var inner := prefix + ['/'] + folder;
    assert prefix + ['/'] + folder + ['/'] == inner + ['/'] + [];
    SplitAround(inner, [], '/');
    SplitAround(prefix, folder, '/');
    SplitWithoutSeparator(folder, '/');
  }

  /** A path ending in a non-empty folder name and a slash is labelled with that name. */
  lemma TrailingFolderLabel(prefix: string, folder: string)
    requires folder != "" && '/' !in folder
    ensures FolderLabel(prefix + ['/'] + folder + ['/']) == folder
  {
    FolderSegments(prefix, folder);
    var head := Split(prefix, '/');
    FilterAppend(head, [folder, ""], NonEmpty);
    assert Filter([folder, ""], NonEmpty) == [folder] by {
      assert [folder, ""][1..] == [""];
      assert [""][1..] == [];
    }
    var segments := Filter(head, NonEmpty) + [folder];
    assert segments[|segments| - 1] == folder;
  }

  /** Whatever precedes it, a path ending in `/DiaryStorage/` is labelled `DiaryStorage`. */
  lemma StorageLabel(prefix: string)
    ensures FolderLabel(prefix + "/DiaryStorage/") == StorageFolder
  {
    assert prefix + "/DiaryStorage/" == prefix + ['/'] + StorageFolder + ['/'];
    TrailingFolderLabel(prefix, StorageFolder);
  }

  /** What a click on the folder row leads to. */
  datatype FolderChoice = KeepPath | UsePath(path: string) | OpenFolderInput

  /**
   * `handleFolderClick`: on the native platform the path cannot change; with a directory picker
   * the picked folder's name (`None` when the picker is cancelled or blocked) gives the path;
   * without one the hidden folder input is opened.
   */
  function FolderClick(native: bool, pickerAvailable: bool, picked: Option<string>): (c: FolderChoice)
    ensures native ==> c == KeepPath
    ensures c.UsePath? <==> !native && pickerAvailable && picked.Some?
    ensures c.UsePath? ==> c.path == DevicePath(picked.value)
    ensures c.UsePath? ==> FolderLabel(c.path) == StorageFolder
    ensures c == OpenFolderInput <==> !native && !pickerAvailable
  {
    if native then KeepPath
    else if pickerAvailable then
      match picked
      case Some(name) => UsePath(DevicePath(name))
      case None => KeepPath
    else OpenFolderInput
  }

  /**
   * `handleFolderSelectFallback`: from the chosen files' relative paths, the first file's top
   * folder (or a placeholder name when that is empty) gives the path; no files, no change.
   */
  function FallbackFolder(relativePaths: seq<string>): (path: Option<string>)
    ensures path.None? <==> relativePaths == []
    ensures path.Some? ==> FolderLabel(path.value) == StorageFolder
    ensures path.Some? && Split(relativePaths[0], '/')[0] != "" ==>
      path.value == DevicePath(Split(relativePaths[0], '/')[0])
    ensures path.Some? && Split(relativePaths[0], '/')[0] == "" ==> path.value == DevicePath(DefaultFolderName)
  {
    if |relativePaths| > 0 then
      var top := Split(relativePaths[0], '/')[0];
      Some(DevicePath(if top != "" then top else DefaultFolderName))
    else None
  }

  // ---------------------------------------------------------------- the page

  /** The preset card colours, in the order they are offered. */
  const PresetColours: seq<string> := ["#ffffff", "#fff1f2", "#fffbeb", "#f0f9ff", "#f4f4f5"]

  /** A preset swatch is marked when no image is chosen and the colour is the current one. */
  predicate PresetMarked(bgValue: string, bgIsImage: bool, colour: string) {
    !bgIsImage && bgValue == colour
  }

  /** The avatar is drawn as an image when it is a data URL, as text (an emoji) otherwise. */
  predicate AvatarIsImage(avatar: string) {
    "data:" <= avatar
  }

  class SettingsPage {
    var userName: string
    var avatar: string
    var dbPath: string
    var bgValue: string
    var bgIsImage: bool
    var isSaved: bool

    function Current(): Profile
      reads this
    {
      Profile(userName, avatar, dbPath, bgValue, bgIsImage)
    }

    /** The page before its settings are loaded; the path starts empty. */
    constructor ()
      ensures Current() == Defaults.(dbPath := "") && !isSaved
    {
      userName, avatar, dbPath := Defaults.userName, Defaults.avatar, "";
      bgValue, bgIsImage, isSaved := Defaults.bgValue, Defaults.bgIsImage, false;
    }

    /** `loadSettings`. */
    method LoadSettings(db: Db.Database)
      modifies this`userName, this`avatar, this`dbPath, this`bgValue, this`bgIsImage
      ensures Current() == ReadProfile(db.settings)
    {
      userName := Db.TextSetting(db.settings, UserNameKey, Defaults.userName);
      avatar := Db.TextSetting(db.settings, AvatarKey, Defaults.avatar);
      dbPath := Db.TextSetting(db.settings, PathKey, Defaults.dbPath);
      bgValue := Db.TextSetting(db.settings, BgValueKey, Defaults.bgValue);
      bgIsImage := Db.FlagSetting(db.settings, BgIsImageKey, Defaults.bgIsImage);
    }

    /** `handleSave`: the five writes, then the saved notice; a later load reads the profile back. */
    method HandleSave(db: Db.Database)
      modifies db`settings, this`isSaved
      ensures db.settings == WriteProfile(old(db.settings), Current())
      ensures ReadProfile(db.settings) == Current()
      ensures isSaved
    {
      db.SetSetting(UserNameKey, TextValue(userName));
      db.SetSetting(AvatarKey, TextValue(avatar));
      db.SetSetting(PathKey, TextValue(dbPath));
      db.SetSetting(BgValueKey, TextValue(bgValue));
      db.SetSetting(BgIsImageKey, FlagValue(bgIsImage));
      isSaved := true;
    }

    /** The timer that hides the saved notice. */
    method SavedNoticeExpired()
      modifies this`isSaved
      ensures !isSaved
    {
      isSaved := false;
    }

    method SetUserName(name: string)
      modifies this`userName
      ensures userName == name
    {
      userName := name;
    }

    /** The avatar reader's callback with the picked image as a data URL. */
    method AvatarLoaded(dataUrl: string)
      modifies this`avatar
      ensures avatar == dataUrl
      ensures "data:" <= dataUrl ==> AvatarIsImage(avatar)
    {
      avatar := dataUrl;
    }

    /** The background reader's callback: the image becomes the card background. */
    method BackgroundImageLoaded(dataUrl: string)
      modifies this`bgValue, this`bgIsImage
      ensures bgValue == dataUrl && bgIsImage
      ensures forall colour :: !PresetMarked(bgValue, bgIsImage, colour)
    {
      bgValue := dataUrl;
      bgIsImage := true;
    }

    /** A preset swatch: its colour becomes the background, and it alone is marked. */
    method PickPreset(colour: string)
      requires colour in PresetColours
      modifies this`bgValue, this`bgIsImage
      ensures bgValue == colour && !bgIsImage
      ensures forall other :: PresetMarked(bgValue, bgIsImage, other) <==> other == colour
    {
      bgValue := colour;
      bgIsImage := false;
    }

    /** A click on the folder row; returns whether the hidden folder input is opened. */
    method HandleFolderClick(native: bool, pickerAvailable: bool, picked: Option<string>) returns (openInput: bool)
      modifies this`dbPath
      ensures native ==> dbPath == old(dbPath) && !openInput
      ensures dbPath == match FolderClick(native, pickerAvailable, picked)
        case UsePath(p) => p
        case _ => old(dbPath)
      ensures openInput <==> FolderClick(native, pickerAvailable, picked) == OpenFolderInput
    {
      var choice := FolderClick(native, pickerAvailable, picked);
      openInput := choice == OpenFolderInput;
      if choice.UsePath? {
        dbPath := choice.path;
      }
    }

    /** The hidden folder input's change event. */
    method HandleFolderSelectFallback(relativePaths: seq<string>)
      modifies this`dbPath
      ensures dbPath == match FallbackFolder(relativePaths)
        case Some(p) => p
        case None => old(dbPath)
      ensures relativePaths != [] ==> FolderLabel(dbPath) == StorageFolder
    {
      var path := FallbackFolder(relativePaths);
      if path.Some? {
        dbPath := path.value;
      }
    }
  }
}
