/**
 * The entry viewer (components/DiaryViewer.tsx): the card's photo grid, its background and
 * the name and payload of the exported picture.
 */
module Viewer {
  import opened Opt
  import opened Text
  import opened Types
  import Db
  import MyPage

  /** `getGridCols`: one column for one photo, two for two or four, three otherwise. */
  function GridCols(count: int): (cls: string)
    ensures cls in {"grid-cols-1", "grid-cols-2", "grid-cols-3"}
    ensures cls == "grid-cols-1" <==> count == 1
    ensures cls == "grid-cols-2" <==> count == 2 || count == 4
  {
    if count == 1 then "grid-cols-1"
    else if count == 2 || count == 4 then "grid-cols-2"
    else "grid-cols-3"
  }

  /** The exported picture's file name, the same on the native and the web path. */
  function ExportFileName(date: string): (name: string)
    ensures |name| >= 10 && name[..6] == "Diary-" && name[|name| - 4..] == ".png"
    ensures name[6..|name| - 4] <= date && 'T' !in name[6..|name| - 4]
    ensures |name| - 10 < |date| ==> date[|name| - 10] == 'T'
  {
    var name := "Diary-" + DatePart(date) + ".png";
    assert name[6..|name| - 4] == DatePart(date);
    name
  }

  /** For an ISO date-time the file name carries the calendar date. */
  lemma ExportFileNameOfIso(day: string, time: string)
    requires 'T' !in day
    ensures ExportFileName(day + "T" + time) == "Diary-" + day + ".png"
  {
    DatePartOf(day, time);
  }

  /** `dataUrl.split(',')[1]`: the text after the first comma, up to any next one. */
  function NativePayload(dataUrl: string): (payload: Option<string>)
    ensures payload.None? <==> ',' !in dataUrl
    ensures payload.Some? ==> ',' !in payload.value
    ensures payload.Some? ==> IsSecondPiece(dataUrl, ',', payload.value)
  {
    SplitSeveral(dataUrl, ',');
    var parts := Split(dataUrl, ',');
    if ',' in dataUrl then
      SecondPiece(dataUrl, ',');
      Some(parts[1])
    else
      None
  }

  /** The payload of a data URL `header,base64` is its base64 part. */
  lemma PayloadOfDataUrl(header: string, data: string)
    requires ',' !in header && ',' !in data
    ensures NativePayload(header + "," + data) == Some(data)
  {
    assert header + "," + data == header + [','] + data;
    SplitAround(header, data, ',');
    SplitWithoutSeparator(header, ',');
    SplitWithoutSeparator(data, ',');
  }

  /** The card's background: an image by URL, or a colour. */
  datatype CardStyle = BackgroundImage(url: string) | BackgroundColour(colour: string)

  /** `cardStyle`. */
  function CardStyleOf(bgValue: string, bgIsImage: bool): (style: CardStyle)
    ensures style.BackgroundImage? <==> bgIsImage
    ensures style.BackgroundImage? ==> style.url == "url(" + bgValue + ")"
    ensures style.BackgroundColour? ==> style.colour == bgValue
  {
    if bgIsImage then BackgroundImage("url(" + bgValue + ")") else BackgroundColour(bgValue)
  }

  class DiaryViewer {
    const entry: DiaryEntry
    var bgValue: string
    var bgIsImage: bool

    /** The viewer shows a white card until the background settings are loaded. */
    constructor (entry: DiaryEntry)
      ensures this.entry == entry && bgValue == "#ffffff" && !bgIsImage
    {
      this.entry := entry;
      bgValue, bgIsImage := "#ffffff", false;
    }

    /** `loadBg`: the two background settings with their defaults. */
    method LoadBackground(db: Db.Database)
      modifies this`bgValue, this`bgIsImage
      ensures bgValue == Db.TextSetting(db.settings, MyPage.BgValueKey, "#ffffff")
      ensures bgIsImage == Db.FlagSetting(db.settings, MyPage.BgIsImageKey, false)
    {
      bgValue := Db.TextSetting(db.settings, MyPage.BgValueKey, "#ffffff");
      bgIsImage := Db.FlagSetting(db.settings, MyPage.BgIsImageKey, false);
    }
  }

  /** The card shows the background last saved on the settings page. */
  lemma CardShowsSavedBackground(settings: map<string, SettingValue>, p: MyPage.Profile)
    ensures var saved := MyPage.WriteProfile(settings, p);
      CardStyleOf(Db.TextSetting(saved, MyPage.BgValueKey, "#ffffff"),
                  Db.FlagSetting(saved, MyPage.BgIsImageKey, false))
      == if p.bgIsImage then BackgroundImage("url(" + p.bgValue + ")") else BackgroundColour(p.bgValue)
  {
    var saved := MyPage.WriteProfile(settings, p);
    assert MyPage.ReadProfile(saved) == p;
  }
}
