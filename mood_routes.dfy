/** The mood log behind /api/moods (backend/routes/moods.js): listing, logging, editing and
    deleting one's own entries, and the analytics over the last days. */
module MoodRoutes {
  import opened Wrappers
  import opened Moods
  import opened MoodAnalytics
  import Sorting
  import Tally

  /** GET /api/moods/analytics looks back this many days when no `days` is given. */
  const DefaultDays := 30

  /** `Mood.findOne({ _id: id, user })`: the entry must be the caller's. */
  predicate Owned(m: Mood, id: MoodId, user: UserId) {
    m.id == id && m.user == user
  }

  /** Every entry has its own id, below the next one handed out, and passed the schema. */
  ghost predicate LogValid(docs: seq<Mood>, nextId: nat) {
    && (forall i, j :: 0 <= i < |docs| && 0 <= j < |docs| && i != j ==> docs[i].id != docs[j].id)
    && (forall i :: 0 <= i < |docs| ==> docs[i].id < nextId)
    && (forall i :: 0 <= i < |docs| ==> SchemaAccepts(docs[i]))
  }

  /** Replacing an entry by one with the same id, accepted by the schema, keeps the log valid. */
  lemma ReplaceKeepsValid(docs: seq<Mood>, nextId: nat, k: nat, m: Mood)
    requires LogValid(docs, nextId) && k < |docs| && m.id == docs[k].id && SchemaAccepts(m)
    ensures LogValid(docs[k := m], nextId)
  {
  }

  /** Removing an entry keeps the log valid, and no remaining entry has its id. */
  lemma RemoveKeepsValid(docs: seq<Mood>, nextId: nat, k: nat)
    requires LogValid(docs, nextId) && k < |docs|
    ensures LogValid(docs[..k] + docs[k + 1..], nextId)
    ensures var after := docs[..k] + docs[k + 1..]; forall i :: 0 <= i < |after| ==> after[i].id != docs[k].id
  {
    var after := docs[..k] + docs[k + 1..];
    forall i | 0 <= i < |after| ensures after[i] == docs[if i < k then i else i + 1] {
    }
  }

  /** A new entry with the next id and accepted by the schema keeps the log valid. */
  lemma AppendKeepsValid(docs: seq<Mood>, nextId: nat, m: Mood)
    requires LogValid(docs, nextId) && m.id == nextId && SchemaAccepts(m)
    ensures LogValid(docs + [m], nextId + 1)
  {
    var after := docs + [m];
    forall i | 0 <= i < |after| ensures after[i].id <= nextId && SchemaAccepts(after[i]) {
      if i < |docs| {
        assert after[i] == docs[i];
      }
    }
  }

  /** The mood collection. */
  class MoodLog {
    var docs: seq<Mood>
    var nextId: nat

    ghost predicate Valid()
      reads this
    {
      LogValid(docs, nextId)
    }

    constructor ()
      ensures Valid() && docs == [] && nextId == 0
    {
      docs, nextId := [], 0;
    }

    /** GET /api/moods: the caller's entries in the range, newest first, at most `limit`
        (30 when none is given). */
    method GetMoods(user: UserId, startDate: Option<int>, endDate: Option<int>, limit: Option<int>)
      returns (r: seq<Mood>)
      ensures r == Query(docs, user, startDate, endDate, limit.GetOr(DefaultLimit))
      ensures forall i :: 0 <= i < |r| ==> r[i] in docs && r[i].user == user
      ensures limit.None? ==> |r| <= DefaultLimit
    {
      r := Query(docs, user, startDate, endDate, limit.GetOr(DefaultLimit));
    }

    /** POST /api/moods: a valid request whose trimmed notes and tags fit the schema stores
        the new entry last and answers it (201); one that does not fit fails at save (500). */
    method CreateMood(user: UserId, mood: Option<string>, intensity: Option<int>, notes: Option<string>,
                      tags: Option<seq<string>>, date: Option<int>, now: int)
      returns (r: Outcome<Mood>)
      requires Valid()
      modifies this
      ensures Valid()
      ensures !CreateRequestValid(mood, intensity, notes, tags) ==>
                r == Fail(400, ValidationFailed) && docs == old(docs) && nextId == old(nextId)
      ensures CreateRequestValid(mood, intensity, notes, tags) && !(NotesFit(notes) && TagsFit(tags)) ==>
                r == Fail(500, ServerError) && docs == old(docs) && nextId == old(nextId)
      ensures CreateRequestValid(mood, intensity, notes, tags) && NotesFit(notes) && TagsFit(tags) ==>
                var m := NewMood(old(nextId), user, ParseMood(mood.value).value, intensity.value,
                                 notes, tags, date, now);
                && docs == old(docs) + [m] && nextId == old(nextId) + 1 && r == Ok(m)
    {
      if !CreateRequestValid(mood, intensity, notes, tags) {
        return Fail(400, ValidationFailed);
      }
      var m := NewMood(nextId, user, ParseMood(mood.value).value, intensity.value, notes, tags, date, now);
      CreatedMoodAccepted(nextId, user, mood, intensity, notes, tags, date, now);
      if !SchemaAccepts(m) {
        return Fail(500, ServerError);
      }
      AppendKeepsValid(docs, nextId, m);
      docs, nextId := docs + [m], nextId + 1;
      r := Ok(m);
    }

    /** PUT /api/moods/:id: the caller's entry gets the fields of the patch. The route does
        not check the tags, and counts the notes as `isLength` does, so a tag or notes too
        long for the schema fail at save time (500). */
    method UpdateMood(id: MoodId, user: UserId, p: MoodPatch) returns (r: Outcome<Mood>)
      requires Valid()
      modifies this
      ensures Valid() && nextId == old(nextId)
      ensures r.Fail? ==> docs == old(docs)
      ensures !UpdateRequestValid(p) ==> r == Fail(400, ValidationFailed)
      ensures UpdateRequestValid(p) ==>
        var k := Sorting.FindFirst(old(docs), (m: Mood) => Owned(m, id, user));
        && (k.None? ==> r == Fail(404, "Mood entry not found"))
        && (k.Some? && SchemaAccepts(Patched(old(docs)[k.value], p)) ==>
              docs == old(docs)[k.value := Patched(old(docs)[k.value], p)]
              && r == Ok(Patched(old(docs)[k.value], p)))
        && (k.Some? && !SchemaAccepts(Patched(old(docs)[k.value], p)) ==> r == Fail(500, ServerError))
      ensures r == Fail(500, ServerError) <==>
                UpdateRequestValid(p) && Sorting.FindFirst(old(docs), (m: Mood) => Owned(m, id, user)).Some?
                && !(NotesFit(p.notes) && TagsFit(p.tags))
    {
      if !UpdateRequestValid(p) {
        return Fail(400, ValidationFailed);
      }
      var k := Sorting.FindFirst(docs, (m: Mood) => Owned(m, id, user));
      if k.None? {
        return Fail(404, "Mood entry not found");
      }
      var n := Patched(docs[k.value], p);
      PatchedAccepted(docs[k.value], p);
      if !SchemaAccepts(n) {
        return Fail(500, ServerError);
      }
      PatchedKeepsTheRest(docs[k.value], p);
      ReplaceKeepsValid(docs, nextId, k.value, n);
      docs := docs[k.value := n];
      r := Ok(n);
    }

    /** DELETE /api/moods/:id: the caller's entry goes, and with it the only entry of that id. */
    method DeleteMood(id: MoodId, user: UserId) returns (r: Outcome<string>)
      requires Valid()
      modifies this
      ensures Valid() && nextId == old(nextId)
      ensures var k := Sorting.FindFirst(old(docs), (m: Mood) => Owned(m, id, user));
        && (k.None? ==> r == Fail(404, "Mood entry not found") && docs == old(docs))
        && (k.Some? ==> r == Ok("Mood entry deleted successfully")
                        && docs == old(docs)[..k.value] + old(docs)[k.value + 1..])
      ensures r.Ok? ==> forall i :: 0 <= i < |docs| ==> docs[i].id != id
    {
      var k := Sorting.FindFirst(docs, (m: Mood) => Owned(m, id, user));
      if k.None? {
        return Fail(404, "Mood entry not found");
      }
      RemoveKeepsValid(docs, nextId, k.value);
      docs := docs[..k.value] + docs[k.value + 1..];
      r := Ok("Mood entry deleted successfully");
    }

    /** GET /api/moods/analytics: the entries of the last `days` days (30 when none is
        given), oldest first, counted per mood, grouped by day and by week as the handler
        places its weeks. */
    method Analytics(user: UserId, now: int, days: Option<int>) returns (rep: Report)
      ensures Summarizes(rep, Fetch(docs, user, now, days.GetOr(DefaultDays)), now, days.GetOr(DefaultDays))
      ensures Sum(rep.moodDistribution) == rep.totalEntries
      ensures Tally.Total(Sizes(rep.dailyMoods)) == rep.totalEntries
    {
      var n := days.GetOr(DefaultDays);
      var ms := Fetch(docs, user, now, n);
      rep := Summarize(ms, now, n);
    }
  }
}
