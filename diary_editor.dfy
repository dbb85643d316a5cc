/**
 * The entry editor (components/DiaryEditor.tsx): the form state of one entry, the tag and
 * image list edits, and the save that turns the form into a stored entry.
 */
module Editor {
  import opened Opt
  import opened Seqs
  import opened Text
  import opened Types
  import Db

  /** At most this many images are kept on an entry. */
  const MaxImages: nat := 9

  /** What an empty location is saved as. */
  const UnsetLocation: string := "場所未設定"

  /** `Date` conversion of the form's date: its ISO string and its local calendar year. */
  datatype DateStamp = DateStamp(iso: string, year: int)

  // ---------------------------------------------------------------- list edits

  /** The tag list after `addTag`: `tag` is appended when it is non-empty and new. */
  function WithTag(tags: seq<string>, tag: string): (r: seq<string>)
    ensures tags <= r && |r| <= |tags| + 1
    ensures tag != "" ==> tag in r
    ensures (tag == "" || tag in tags) <==> r == tags
    ensures |r| == |tags| + 1 ==> r[|tags|] == tag
    ensures Distinct(tags) ==> Distinct(r)
  {
    if tag != "" && tag !in tags then tags + [tag] else tags
  }

  /** `[...images, image].slice(0, 9)`: the new image is kept only while there is room. */
  function AppendCapped(images: seq<string>, image: string): (r: seq<string>)
    ensures |r| <= MaxImages
    ensures r <= images + [image]
    ensures |images| < MaxImages ==> r == images + [image]
    ensures |images| >= MaxImages ==> r == images[..MaxImages]
  {
    var all := images + [image];
    if |all| <= MaxImages then all else all[..MaxImages]
  }

  /** `images.filter((_, idx) => idx !== i)`: drops position `i`, if there is one. */
  function RemoveAt<T>(s: seq<T>, i: int): (r: seq<T>)
    ensures 0 <= i < |s| ==> |r| == |s| - 1
    ensures 0 <= i < |s| ==> forall j :: 0 <= j < i ==> r[j] == s[j]
    ensures 0 <= i < |s| ==> forall j :: i <= j < |r| ==> r[j] == s[j + 1]
    ensures !(0 <= i < |s|) ==> r == s
  {
    if s == [] then []
    else if i == 0 then s[1..]
    else [s[0]] + RemoveAt(s[1..], i - 1)
  }

  /** `tags.filter(t => t !== tag)`: every copy of `tag` goes, the rest stay in order. */
  function WithoutTag(tags: seq<string>, tag: string): (r: seq<string>)
    ensures tag !in r
    ensures forall t :: t != tag ==> multiset(r)[t] == multiset(tags)[t]
    ensures IsSubsequence(r, tags)
  {
    var keep := (t: string) => t != tag;
    FilterIsSubsequence(tags, keep);
    forall t | t != tag ensures multiset(Filter(tags, keep))[t] == multiset(tags)[t] {
      FilterCounts(tags, keep, t);
    }
    Filter(tags, keep)
  }

  /** Adding a tag never breaks the distinctness the editor maintains, and removing one keeps it. */
  lemma TagEditsKeepDistinct(tags: seq<string>, tag: string)
    requires Distinct(tags)
    ensures Distinct(WithTag(tags, tag))
    ensures Distinct(WithoutTag(tags, tag))
  {
    SubsequenceKeepsDistinct(WithoutTag(tags, tag), tags);
  }

  // ---------------------------------------------------------------- the saved record

  /**
   * The entry `handleSave` stores: the edited entry's id when it is truthy (present and not
   * 0), no id otherwise, and the placeholder place name for an empty location.
   */
  function BuildEntry(
    entry: Option<DiaryEntry>, content: string, mood: string, images: seq<string>,
    stamp: DateStamp, tags: seq<string>, location: string): (r: DiaryEntry)
    ensures r.id.Some? <==> entry.Some? && entry.value.id.Some? && entry.value.id.value != 0
    ensures r.id.Some? ==> r.id == entry.value.id
    ensures r.location.Some? && r.location.value != ""
    ensures location != "" ==> r.location == Some(location)
    ensures location == "" ==> r.location == Some(UnsetLocation)
    ensures r.date == stamp.iso && r.year == stamp.year
    ensures r.content == content && r.mood == mood && r.images == images && r.tags == tags
  {
    var id := if entry.Some? && entry.value.id.Some? && entry.value.id.value != 0
              then entry.value.id else None;
    DiaryEntry(id, stamp.iso, content, mood, images, tags,
               Some(if location == "" then UnsetLocation else location), stamp.year)
  }

  // ---------------------------------------------------------------- the editor

  class DiaryEditor {
    /** The entry being edited, absent for a new one. */
    const entry: Option<DiaryEntry>
    var content: string
    var mood: string
    var images: seq<string>
    /** The form's calendar date, `YYYY-MM-DD`. */
    var date: string
    var tags: seq<string>
    var location: string
    var newTag: string

    /**
     * The initial form: the edited entry's fields, or an empty form dated with the date part
     * of `nowIso` (the current time as an ISO string) and the first mood.
     */
    constructor (entry: Option<DiaryEntry>, nowIso: string)
      ensures this.entry == entry
      ensures content == (if entry.Some? then entry.value.content else "")
      ensures mood == (if entry.Some? && entry.value.mood != "" then entry.value.mood else Excited.Symbol())
      ensures images == (if entry.Some? then entry.value.images else [])
      ensures date == (if entry.Some? && entry.value.date != "" then DatePart(entry.value.date) else DatePart(nowIso))
      ensures tags == (if entry.Some? then entry.value.tags else [])
      ensures location == (if entry.Some? && entry.value.location.Some? then entry.value.location.value else "")
      ensures newTag == ""
    {
      this.entry := entry;
      content := if entry.Some? then entry.value.content else "";
      mood := if entry.Some? && entry.value.mood != "" then entry.value.mood else Excited.Symbol();
      images := if entry.Some? then entry.value.images else [];
      date := if entry.Some? && entry.value.date != "" then DatePart(entry.value.date) else DatePart(nowIso);
      tags := if entry.Some? then entry.value.tags else [];
      location := if entry.Some? && entry.value.location.Some? then entry.value.location.value else "";
      newTag := "";
    }

    /** `addTag`: appends `newTag` when it is non-empty and new, and only then clears it. */
    method AddTag()
      modifies this`tags, this`newTag
      ensures tags == WithTag(old(tags), old(newTag))
      ensures newTag == if tags != old(tags) then "" else old(newTag)
    {
      if newTag != "" && newTag !in tags {
        tags := tags + [newTag];
        newTag := "";
      }
    }

    /** The image reader's callback: one picked image arrives as a data URL. */
    method ImageLoaded(dataUrl: string)
      modifies this`images
      ensures images == AppendCapped(old(images), dataUrl)
    {
      images := AppendCapped(images, dataUrl);
    }

    /** The close button on image `i`. */
    method RemoveImage(i: int)
      modifies this`images
      ensures images == RemoveAt(old(images), i)
    {
      images := RemoveAt(images, i);
    }

    /** The close button on a tag. */
    method RemoveTag(tag: string)
      modifies this`tags
      ensures tags == WithoutTag(old(tags), tag)
    {
      tags := WithoutTag(tags, tag);
    }

    /** A mood button. */
    method SelectMood(m: Mood)
      modifies this`mood
      ensures mood == m.Symbol()
    {
      mood := m.Symbol();
    }

    /**
     * `handleSave`. Blank content writes nothing (the user is asked to write something); a
     * date that does not convert writes nothing (the conversion throws); otherwise the built
     * entry is put into the store and the key it was stored under is returned.
     */
    method HandleSave(db: Db.Database, toStamp: string -> Option<DateStamp>) returns (saved: Option<int>)
      requires db.Valid()
      modifies db
      ensures db.Valid()
      ensures saved.None? <==> IsBlank(content) || toStamp(date).None?
      ensures saved.None? ==> db.diaries == old(db.diaries) && db.nextId == old(db.nextId)
      ensures saved.Some? && entry.Some? && entry.value.id.Some? && entry.value.id.value != 0 ==>
        saved.value == entry.value.id.value
      ensures saved.Some? && !(entry.Some? && entry.value.id.Some? && entry.value.id.value != 0) ==>
        saved.value == old(db.nextId) && saved.value !in old(db.diaries)
      ensures saved.Some? ==> db.nextId == if saved.value < old(db.nextId) then old(db.nextId) else saved.value + 1
      ensures saved.Some? ==>
        db.diaries == old(db.diaries)[saved.value :=
          BuildEntry(entry, content, mood, images, toStamp(date).value, tags, location).(id := Some(saved.value))]
      ensures db.settings == old(db.settings)
    {
      if IsBlank(content) {
        return None;
      }
      var stamp := toStamp(date);
      if stamp.None? {
        return None;
      }
      var newEntry := BuildEntry(entry, content, mood, images, stamp.value, tags, location);
      var key := db.SaveDiary(newEntry);
      saved := Some(key);
    }
  }
}
