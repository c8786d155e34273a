/** The mood log's documents (backend/models/Mood.js as the mood routes use it), the
    request checks of the mood endpoints, the patch of PUT /api/moods/:id and the
    query of GET /api/moods. */
module Moods {
  import opened Wrappers
  import Sorting
  import Text
  import TextLength

  type UserId = nat
  type MoodId = nat

  /** The mood enum, from saddest to happiest. */
  datatype MoodKind = VerySad | Sad | Neutral | Happy | VeryHappy

  /** The name under which a mood is stored and sent. */
  function Name(k: MoodKind): string {
    match k
    case VerySad => "very_sad"
    case Sad => "sad"
    case Neutral => "neutral"
    case Happy => "happy"
    case VeryHappy => "very_happy"
  }

  /** `isIn(['very_sad', 'sad', 'neutral', 'happy', 'very_happy'])`, and the mood it names. */
  function ParseMood(s: string): (r: Option<MoodKind>)
    ensures r.Some? ==> Name(r.value) == s
    ensures r.None? ==> forall k: MoodKind :: Name(k) != s
  {
    if s == "very_sad" then Some(VerySad)
    else if s == "sad" then Some(Sad)
    else if s == "neutral" then Some(Neutral)
    else if s == "happy" then Some(Happy)
    else if s == "very_happy" then Some(VeryHappy)
    else None
  }

  /** Every name parses back to its mood. */
  lemma ParseName(k: MoodKind)
    ensures ParseMood(Name(k)) == Some(k)
  {
  }

  /** GET /api/moods returns this many entries when no `limit` is given. */
  const DefaultLimit := 30

  /** `moodValues`: the score of a mood, 1 for the saddest up to 5 for the happiest. */
  function MoodValue(k: MoodKind): (v: nat)
    ensures 1 <= v <= 5
  {
    match k
    case VerySad => 1
    case Sad => 2
    case Neutral => 3
    case Happy => 4
    case VeryHappy => 5
  }

  /** Different moods score differently, and the score grows with the mood. */
  lemma MoodValueOrder(a: MoodKind, b: MoodKind)
    ensures MoodValue(a) == MoodValue(b) <==> a == b
    ensures a.VerySad? && !b.VerySad? ==> MoodValue(a) < MoodValue(b)
    ensures b.VeryHappy? && !a.VeryHappy? ==> MoodValue(a) < MoodValue(b)
  {
  }

  /** A stored mood entry; `date` is a millisecond timestamp. */
  datatype Mood = Mood(id: MoodId, user: UserId, mood: MoodKind, intensity: int,
                       notes: Option<string>, tags: seq<string>, date: int)

  function DateOf(m: Mood): int { m.date }

  /** What the schema accepts at save time: an intensity from 1 to 5, notes within 500
      UTF-16 units and each tag within 50 (`maxlength` measures `String.length`). */
  predicate SchemaAccepts(m: Mood) {
    && 1 <= m.intensity <= 5
    && (m.notes.Some? ==> TextLength.Utf16Len(m.notes.value) <= 500)
    && forall i :: 0 <= i < |m.tags| ==> TextLength.Utf16Len(m.tags[i]) <= 50
  }

  /** Request notes that, once the schema has trimmed them, fit its `maxlength`. */
  predicate NotesFit(notes: Option<string>) {
    notes.Some? ==> TextLength.Utf16Len(Text.Trim(notes.value)) <= 500
  }

  /** Request tags that, once trimmed, each fit the schema's `maxlength`. */
  predicate TagsFit(tags: Option<seq<string>>) {
    tags.Some? ==> forall i :: 0 <= i < |tags.value| ==> TextLength.Utf16Len(Text.Trim(tags.value[i])) <= 50
  }

  /** The request checks of POST /api/moods (`isLength` counts as `TextLength.CheckedLen`). */
  predicate CreateRequestValid(mood: Option<string>, intensity: Option<int>,
                               notes: Option<string>, tags: Option<seq<string>>)
  {
    && mood.Some? && ParseMood(mood.value).Some?
    && intensity.Some? && 1 <= intensity.value <= 5
    && (notes.Some? ==> TextLength.CheckedLen(notes.value) <= 500)
    && (tags.Some? ==> forall i :: 0 <= i < |tags.value| ==> TextLength.CheckedLen(tags.value[i]) <= 50)
  }

  /** `date ? new Date(date) : new Date()`: a missing date, and the falsy timestamp 0, mean now. */
  function DateOrNow(date: Option<int>, now: int): int {
    if date.Some? && date.value != 0 then date.value else now
  }

  /** The new entry of POST /api/moods: no tags means `[]`, a missing or zero date means now. */
  function NewMood(id: MoodId, user: UserId, mood: MoodKind, intensity: int, notes: Option<string>,
                   tags: Option<seq<string>>, date: Option<int>, now: int): (m: Mood)
    ensures m.id == id && m.user == user && m.mood == mood && m.intensity == intensity
    ensures m.notes == Text.TrimOpt(notes)
    ensures tags.None? ==> m.tags == []
    ensures tags.Some? ==> |m.tags| == |tags.value|
                           && forall i :: 0 <= i < |m.tags| ==> m.tags[i] == Text.Trim(tags.value[i])
    ensures date.None? || date.value == 0 ==> m.date == now
    ensures date.Some? && date.value != 0 ==> m.date == date.value
  {
    Mood(id, user, mood, intensity, Text.TrimOpt(notes), Text.TrimAll(tags.GetOr([])), DateOrNow(date, now))
  }

  /** After the request checks of POST, the schema accepts the new entry exactly when its
      trimmed notes and tags fit in UTF-16 units. */
  lemma CreatedMoodAccepted(id: MoodId, user: UserId, mood: Option<string>, intensity: Option<int>,
                            notes: Option<string>, tags: Option<seq<string>>, date: Option<int>, now: int)
    requires CreateRequestValid(mood, intensity, notes, tags)
    ensures SchemaAccepts(NewMood(id, user, ParseMood(mood.value).value, intensity.value, notes, tags, date, now))
            <==> NotesFit(notes) && TagsFit(tags)
  {
    var m := NewMood(id, user, ParseMood(mood.value).value, intensity.value, notes, tags, date, now);
    assert (m.notes.Some? ==> TextLength.Utf16Len(m.notes.value) <= 500) <==> NotesFit(notes);
    if tags.None? {
      assert m.tags == [];
    } else if TagsFit(tags) {
      forall i | 0 <= i < |m.tags| ensures TextLength.Utf16Len(m.tags[i]) <= 50 {
        assert m.tags[i] == Text.Trim(tags.value[i]);
      }
    } else {
      var i :| 0 <= i < |tags.value| && TextLength.Utf16Len(Text.Trim(tags.value[i])) > 50;
      assert TextLength.Utf16Len(m.tags[i]) > 50;
    }
  }

  /** On plain text, whatever the request checks of POST let through, the schema accepts. */
  lemma CreatedPlainMoodAccepted(id: MoodId, user: UserId, mood: Option<string>, intensity: Option<int>,
                                 notes: Option<string>, tags: Option<seq<string>>, date: Option<int>, now: int)
    requires CreateRequestValid(mood, intensity, notes, tags)
    requires notes.Some? ==> TextLength.Plain(notes.value)
    requires tags.Some? ==> forall i :: 0 <= i < |tags.value| ==> TextLength.Plain(tags.value[i])
    ensures SchemaAccepts(NewMood(id, user, ParseMood(mood.value).value, intensity.value, notes, tags, date, now))
  {
    if notes.Some? {
      TextLength.PlainLengths(notes.value);
      TextLength.TrimmedUnits(notes.value);
    }
    if tags.Some? {
      forall i | 0 <= i < |tags.value| ensures TextLength.Utf16Len(Text.Trim(tags.value[i])) <= 50 {
        TextLength.PlainLengths(tags.value[i]);
        TextLength.TrimmedUnits(tags.value[i]);
      }
    }
    CreatedMoodAccepted(id, user, mood, intensity, notes, tags, date, now);
  }

  /** The fields PUT /api/moods/:id may carry. */
  datatype MoodPatch = MoodPatch(mood: Option<string>, intensity: Option<int>,
                                 notes: Option<string>, tags: Option<seq<string>>)

  /** The request checks of PUT /api/moods/:id; the tags are not checked there. */
  predicate UpdateRequestValid(p: MoodPatch) {
    && (p.mood.Some? ==> ParseMood(p.mood.value).Some?)
    && (p.intensity.Some? ==> 1 <= p.intensity.value <= 5)
    && (p.notes.Some? ==> TextLength.CheckedLen(p.notes.value) <= 500)
  }

  /** The entry after `if (x !== undefined) mood.x = x` for each field. */
  function Patched(m: Mood, p: MoodPatch): Mood
    requires UpdateRequestValid(p)
  {
    m.(mood := if p.mood.Some? then ParseMood(p.mood.value).value else m.mood,
       intensity := p.intensity.GetOr(m.intensity),
       notes := if p.notes.Some? then Text.TrimOpt(p.notes) else m.notes,
       tags := if p.tags.Some? then Text.TrimAll(p.tags.value) else m.tags)
  }

  /** A patch changes exactly the fields it carries. */
  lemma PatchedKeepsTheRest(m: Mood, p: MoodPatch)
    requires UpdateRequestValid(p)
    ensures var n := Patched(m, p);
      && n.id == m.id && n.user == m.user && n.date == m.date
      && (p.mood.None? ==> n.mood == m.mood) && (p.mood.Some? ==> Name(n.mood) == p.mood.value)
      && (p.intensity.None? ==> n.intensity == m.intensity)
      && (p.intensity.Some? ==> n.intensity == p.intensity.value)
      && (p.notes.None? ==> n.notes == m.notes)
      && (p.tags.None? ==> n.tags == m.tags)
      && (p == MoodPatch(None, None, None, None) ==> n == m)
  {
  }

  /** Applying the same patch twice is applying it once. */
  lemma {:induction false} PatchedIdempotent(m: Mood, p: MoodPatch)
    requires UpdateRequestValid(p)
    ensures Patched(Patched(m, p), p) == Patched(m, p)
  {
    var n := Patched(m, p);
    var o := Patched(n, p);
    if p.notes.Some? {
      Text.TrimIdempotent(p.notes.value);
    }
    assert o.notes == n.notes;
    if p.tags.Some? {
      forall i | 0 <= i < |p.tags.value| ensures o.tags[i] == n.tags[i] {
        Text.TrimIdempotent(p.tags.value[i]);
      }
    }
    assert o.tags == n.tags;
  }

  /** A patch that passes the PUT checks keeps a valid entry valid exactly when the notes
      and every tag it carries fit the schema once trimmed. */
  lemma PatchedAccepted(m: Mood, p: MoodPatch)
    requires SchemaAccepts(m) && UpdateRequestValid(p)
    ensures SchemaAccepts(Patched(m, p)) <==> NotesFit(p.notes) && TagsFit(p.tags)
  {
    var n := Patched(m, p);
    if p.tags.Some? {
      assert n.tags == Text.TrimAll(p.tags.value);
      if !TagsFit(p.tags) {
        var i :| 0 <= i < |p.tags.value| && TextLength.Utf16Len(Text.Trim(p.tags.value[i])) > 50;
        assert TextLength.Utf16Len(n.tags[i]) > 50;
      }
    }
  }

  /** With plain notes, a patch that passes the PUT checks can only fail the schema through
      its tags, which PUT does not check. */
  lemma PlainPatchAccepted(m: Mood, p: MoodPatch)
    requires SchemaAccepts(m) && UpdateRequestValid(p)
    requires p.notes.Some? ==> TextLength.Plain(p.notes.value)
    ensures SchemaAccepts(Patched(m, p)) <==> TagsFit(p.tags)
  {
    if p.notes.Some? {
      TextLength.PlainLengths(p.notes.value);
      TextLength.TrimmedUnits(p.notes.value);
    }
    PatchedAccepted(m, p);
  }

  /** The date filter of GET /api/moods: each bound applies only when it is given. */
  predicate InRange(m: Mood, startDate: Option<int>, endDate: Option<int>) {
    (startDate.Some? ==> startDate.value <= m.date) && (endDate.Some? ==> m.date <= endDate.value)
  }

  /** The query of GET /api/moods: the caller's entries within the range. */
  predicate Matches(m: Mood, user: UserId, startDate: Option<int>, endDate: Option<int>) {
    m.user == user && InRange(m, startDate, endDate)
  }

  /** `Mood.find(query)`: the matching entries, each as often as it is stored. */
  function Matching(docs: seq<Mood>, user: UserId, startDate: Option<int>, endDate: Option<int>)
    : (r: seq<Mood>)
    ensures forall m :: multiset(r)[m] == if Matches(m, user, startDate, endDate) then multiset(docs)[m] else 0
  {
    var matches := (m: Mood) => Matches(m, user, startDate, endDate);
    Sorting.FilterCounts(docs, matches);
    Sorting.Filter(docs, matches)
  }

  /** `Mood.find(query).sort({ date: -1 }).limit(limit)`: the `limit` newest matching entries
      (all of them when `limit` is 0), newest first. */
  function Query(docs: seq<Mood>, user: UserId, startDate: Option<int>, endDate: Option<int>, limit: int)
    : (r: seq<Mood>)
    ensures forall i :: 0 <= i < |r| ==> r[i] in docs && Matches(r[i], user, startDate, endDate)
    ensures Sorting.Descending(r, DateOf)
    ensures var n := |Matching(docs, user, startDate, endDate)|;
      |r| == if limit == 0 || n < Sorting.Abs(limit) then n else Sorting.Abs(limit)
    ensures Sorting.TopOf(r, multiset(Matching(docs, user, startDate, endDate)), DateOf)
    ensures limit == 0 ==> multiset(r) == multiset(Matching(docs, user, startDate, endDate))
  {
    var found := Matching(docs, user, startDate, endDate);
    Sorting.LimitedTop(found, DateOf, limit);
    var r := Sorting.Limit(Sorting.SortDescending(found, DateOf), limit);
    forall i | 0 <= i < |r| ensures r[i] in docs && Matches(r[i], user, startDate, endDate) {
      assert r[i] in multiset(found);
    }
    r
  }
}
