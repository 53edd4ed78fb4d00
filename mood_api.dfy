/** The mood endpoints (backend/mood.py): logging an entry, and listing the
    caller's most recent entries oldest first. */
module MoodApi {
  import opened Wrappers
  import opened Json
  import opened Lists

  const MoodRequired := "Mood is required."
  const ServerError := "Internal Server Error"

  /** The number of entries listed when the query gives no limit. */
  const DefaultLimit := 30

  /** A stored entry. Instants are abstract and ordered: an `int`. */
  datatype MoodDoc = MoodDoc(userId: string, mood: Json, timestamp: int, note: Json)

  /** An entry with the id the database gave it, as a string. */
  datatype Stored = Stored(id: string, doc: MoodDoc)

  /** An entry as the listing returns it, the instant written as text. */
  datatype MoodOut = MoodOut(id: string, userId: string, mood: Json, timestamp: string, note: Json)

  /** `data.get('note', "")`: the stored value whenever the key is present,
      even a null one. */
  function NoteOf(data: Object): (note: Json)
    ensures "note" in data ==> note == data["note"]
    ensures "note" !in data ==> note == JStr("")
  {
    if "note" in data then data["note"] else JStr("")
  }

  /** The instant add_mood stores: the current one when the body's timestamp
      is missing or falsy, otherwise the parse of the ISO text; a value that
      is not text, or text that does not parse, raises, which Flask answers
      with a 500. */
  function EntryTime(data: Object, now: int, parseIso: string -> Option<int>): (t: Option<int>)
    ensures Missing(data, "timestamp") ==> t == Some(now)
    ensures !Missing(data, "timestamp") && !data["timestamp"].JStr? ==> t.None?
    ensures !Missing(data, "timestamp") && data["timestamp"].JStr? ==> t == parseIso(data["timestamp"].s)
  {
    if Missing(data, "timestamp") then Some(now)
    else if data["timestamp"].JStr? then parseIso(data["timestamp"].s)
    else None
  }

  /** add_mood. The database's insert appends the entry under the fresh id
      `newId`; the clock and the ISO parser are parameters. */
  method AddMood(moods: seq<Stored>, userId: string, data: Object, now: int,
                 parseIso: string -> Option<int>, newId: string)
    returns (r: Result<Stored>, after: seq<Stored>)
    ensures Missing(data, "mood") ==> r == Err(400, MoodRequired) && after == moods
    ensures !Missing(data, "mood") && EntryTime(data, now, parseIso).None? ==>
      r == Err(500, ServerError) && after == moods
    ensures r.Ok? <==> !Missing(data, "mood") && EntryTime(data, now, parseIso).Some?
    ensures r.Ok? ==> r.value.id == newId && after == moods + [r.value]
    ensures r.Ok? ==>
      r.value.doc == MoodDoc(userId, data["mood"], EntryTime(data, now, parseIso).value, NoteOf(data))
  {
    var mood := Get(data, "mood");
    var timestamp := Get(data, "timestamp");
    if mood.None? || !Truthy(mood.value) {
      return Err(400, MoodRequired), moods;
    }
    var instant: int;
    if timestamp.None? || !Truthy(timestamp.value) {
      instant := now;
    } else if !timestamp.value.JStr? {
      return Err(500, ServerError), moods;
    } else {
      var parsed := parseIso(timestamp.value.s);
      if parsed.None? {
        return Err(500, ServerError), moods;
      }
      instant := parsed.value;
    }
    var entry := Stored(newId, MoodDoc(userId, mood.value, instant, NoteOf(data)));
    after := moods + [entry];
    r := Ok(entry);
  }

  /** `int(request.args.get("limit", 30))`: the default when absent; text
      that `int` refuses raises, answered with a 500. */
  function ReadLimit(arg: Option<string>, parseInt: string -> Option<int>): (limit: Option<int>)
    ensures arg.None? ==> limit == Some(DefaultLimit)
    ensures arg.Some? ==> limit == parseInt(arg.value)
  {
    if arg.None? then Some(DefaultLimit) else parseInt(arg.value)
  }

  /** How many documents the database's `limit(n)` lets through: a limit of 0
      means none, and a negative limit counts as its absolute value. */
  function Taken(limit: int, available: nat): (n: nat)
    ensures n <= available
    ensures limit == 0 ==> n == available
    ensures limit != 0 ==> n <= (if limit < 0 then -limit else limit)
    ensures limit != 0 && n < available ==> n == (if limit < 0 then -limit else limit)
  {
    var bound := if limit < 0 then -limit else limit;
    if limit == 0 || available <= bound then available else bound
  }

  /** One document as the listing writes it: the id as a string and the
      instant through `isoformat`. */
  function Serialize(m: Stored, isoFormat: int -> string): (o: MoodOut)
    ensures o.id == m.id && o.userId == m.doc.userId && o.mood == m.doc.mood
    ensures o.note == m.doc.note && o.timestamp == isoFormat(m.doc.timestamp)
  {
    MoodOut(m.id, m.doc.userId, m.doc.mood, isoFormat(m.doc.timestamp), m.doc.note)
  }

  /** The entries each serialized. */
  function SerializeAll(ms: seq<Stored>, isoFormat: int -> string): (os: seq<MoodOut>)
    ensures |os| == |ms|
    ensures forall k :: 0 <= k < |ms| ==> os[k] == Serialize(ms[k], isoFormat)
  {
    if ms == [] then [] else [Serialize(ms[0], isoFormat)] + SerializeAll(ms[1..], isoFormat)
  }

  /** The entries the listing returns: the first n of the cursor, reversed. */
  function Returned(cursor: seq<Stored>, n: nat): (rs: seq<Stored>)
    requires n <= |cursor|
    ensures |rs| == n
    ensures forall k :: 0 <= k < n ==> rs[k] == cursor[n - 1 - k]
  {
    Reverse(cursor[..n])
  }

  /** get_moods over the query's cursor: the loop serializes each document
      the limit lets through, and the list is answered reversed. */
  method GetMoods(cursor: seq<Stored>, limitArg: Option<string>,
                  parseInt: string -> Option<int>, isoFormat: int -> string)
    returns (r: Result<seq<MoodOut>>)
    ensures r.Err? <==> ReadLimit(limitArg, parseInt).None?
    ensures r.Err? ==> r == Err(500, ServerError)
    ensures r.Ok? ==>
      r.value == SerializeAll(Returned(cursor, Taken(ReadLimit(limitArg, parseInt).value, |cursor|)), isoFormat)
  {
    var limit := ReadLimit(limitArg, parseInt);
    if limit.None? {
      return Err(500, ServerError);
    }
    var n := Taken(limit.value, |cursor|);
    var moodList: seq<MoodOut> := [];
    for i := 0 to n
      invariant |moodList| == i
      invariant forall k :: 0 <= k < i ==> moodList[k] == Serialize(cursor[k], isoFormat)
    {
      moodList := moodList + [Serialize(cursor[i], isoFormat)];
    }
    ReverseSerialized(moodList, cursor, n, isoFormat);
    r := Ok(Reverse(moodList));
  }

  /** The documents serialized in cursor order, reversed, are the returned
      entries serialized. */
  lemma ReverseSerialized(moodList: seq<MoodOut>, cursor: seq<Stored>, n: nat, isoFormat: int -> string)
    requires n <= |cursor| && |moodList| == n
    requires forall k :: 0 <= k < n ==> moodList[k] == Serialize(cursor[k], isoFormat)
    ensures Reverse(moodList) == SerializeAll(Returned(cursor, n), isoFormat)
  {
  }

  /** The order the query sorts by: newest first. */
  predicate NewestFirst(ms: seq<Stored>)
  {
    forall i, j :: 0 <= i < j < |ms| ==> ms[i].doc.timestamp >= ms[j].doc.timestamp
  }

  /** The order the listing promises: oldest first. */
  predicate OldestFirst(ms: seq<Stored>)
  {
    forall i, j :: 0 <= i < j < |ms| ==> ms[i].doc.timestamp <= ms[j].doc.timestamp
  }

  /** Reversing the newest-first cursor lists the entries oldest first, and
      the ones listed are at least as recent as every one the limit cut
      off. */
  lemma ReturnedOldestFirst(cursor: seq<Stored>, n: nat)
    requires n <= |cursor| && NewestFirst(cursor)
    ensures OldestFirst(Returned(cursor, n))
    ensures forall x, y :: x in Returned(cursor, n) && y in cursor[n..] ==>
      y.doc.timestamp <= x.doc.timestamp
  {
    var rs := Returned(cursor, n);
    forall x, y | x in rs && y in cursor[n..]
      ensures y.doc.timestamp <= x.doc.timestamp
    {
      var i :| 0 <= i < n && rs[i] == x;
      var j :| 0 <= j < |cursor| - n && cursor[n..][j] == y;
      assert x == cursor[n - 1 - i];
      assert y == cursor[n + j];
    }
  }

  /** The entries listed are cursor entries, each once. */
  lemma ReturnedFromCursor(cursor: seq<Stored>, n: nat)
    requires n <= |cursor|
    ensures multiset(Returned(cursor, n)) == multiset(cursor[..n])
  {
    ReverseSameMultiset(cursor[..n]);
  }

  /** A reversed sequence holds the same elements. */
  lemma {:induction false} ReverseSameMultiset<T>(xs: seq<T>)
    ensures multiset(Reverse(xs)) == multiset(xs)
  {
    if xs != [] {
      var last := xs[|xs| - 1];
      var init := xs[..|xs| - 1];
      assert xs == init + [last];
      assert Reverse(xs) == [last] + Reverse(init);
      ReverseSameMultiset(init);
    }
  }

  /** The documents of one user: the filter of the query. */
  function OwnedBy(userId: string): Stored -> bool
  {
    (m: Stored) => m.doc.userId == userId
  }

  /** A cursor the query can yield over the collection: that user's entries,
      each once, newest first. */
  predicate QueryResult(moods: seq<Stored>, userId: string, cursor: seq<Stored>)
  {
    multiset(cursor) == multiset(Filter(moods, OwnedBy(userId))) && NewestFirst(cursor)
  }

  /** The listing never shows another user's entries. */
  lemma ListsOnlyOwnEntries(moods: seq<Stored>, userId: string, cursor: seq<Stored>, n: nat)
    requires QueryResult(moods, userId, cursor) && n <= |cursor|
    ensures forall x :: x in Returned(cursor, n) ==> x.doc.userId == userId
  {
    ReturnedFromCursor(cursor, n);
    forall x | x in Returned(cursor, n)
      ensures x.doc.userId == userId
    {
      assert x in multiset(cursor[..n]);
      assert x in cursor;
      assert x in multiset(Filter(moods, OwnedBy(userId)));
      assert OwnedBy(userId)(x);
    }
  }

  /** An entry logged by a user is one of that user's entries the next
      listing queries. */
  lemma AddedEntryIsQueried(moods: seq<Stored>, userId: string, entry: Stored)
    requires entry.doc.userId == userId
    ensures entry in Filter(moods + [entry], OwnedBy(userId))
  {
    FilterCounts(moods + [entry], OwnedBy(userId), entry);
    assert entry in multiset(moods + [entry]);
  }
}
