/** The records of the diary: entries, settings and the mood markers (types.ts). */
module Types {
  import opened Opt
  import Text

  /** The five mood markers; an entry stores the marker's symbol as a string. */
  datatype Mood = Excited | Happy | Normal | Sad | Angry
  {
    function Symbol(): string {
      match this
      case Excited => "🥰"
      case Happy => "😊"
      case Normal => "😐"
      case Sad => "😢"
      case Angry => "😡"
    }
  }

  /** The moods in declaration order, as the editor offers them. */
  const Moods: seq<Mood> := [Excited, Happy, Normal, Sad, Angry]

  /** Every mood is offered, once, and no two buttons show the same symbol. */
  lemma MoodButtonsDistinct()
    ensures forall m: Mood :: m in Moods
    ensures forall i, j :: 0 <= i < j < |Moods| ==> Moods[i] != Moods[j] && Moods[i].Symbol() != Moods[j].Symbol()
  {
    forall m: Mood ensures m in Moods {
      match m
      case Excited => assert Moods[0] == m;
      case Happy => assert Moods[1] == m;
      case Normal => assert Moods[2] == m;
      case Sad => assert Moods[3] == m;
      case Angry => assert Moods[4] == m;
    }
  }

  /**
   * A diary entry. `id` is absent until the store assigns one; `date` is an ISO date-time
   * string; `year` is stored beside it; `images` hold data URLs.
   */
  datatype DiaryEntry = DiaryEntry(
    id: Option<int>,
    date: string,
    content: string,
    mood: string,
    images: seq<string>,
    tags: seq<string>,
    location: Option<string>,
    year: int)

  /** The values the application stores under a settings key: strings and booleans. */
  datatype SettingValue = TextValue(text: string) | FlagValue(flag: bool)

  /** `iso.split('T')[0]`: the calendar-date part of an ISO date-time string. */
  function DatePart(iso: string): (d: string)
    ensures 'T' !in d
    ensures d <= iso
    ensures |d| < |iso| ==> iso[|d|] == 'T'
  {
    Text.JoinSplit(iso, 'T');
    var parts := Text.Split(iso, 'T');
    assert |parts| == 1 || iso == parts[0] + "T" + Text.Join(parts[1..], 'T');
    parts[0]
  }

  /** The date part of `d + "T" + time` is `d`. */
  lemma DatePartOf(d: string, time: string)
    requires 'T' !in d
    ensures DatePart(d + "T" + time) == d
  {
    Text.SplitFirst(d, time, 'T');
  }
}
