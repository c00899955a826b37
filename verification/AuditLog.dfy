/**
 * The resident's audit log (packages/resident/src/audit.ts): one JSON line per entry, one object
 * per UTC day, rewritten whole on every append, over a store whose reads and writes may fail.
 */
module AuditLog {
  import opened Wrappers
  import opened TextLines

  datatype Entry = Entry(time: int, kind: string, taskId: Option<string>, detail: string)

  /** One line of JSON: `JSON.stringify`, and parsing with the entry schema */
  datatype Codec = Codec(encode: Entry -> string, decode: string -> Option<Entry>) {
    /**
     * JSON text of an object: never contains a raw newline (section 7 of RFC 8259), decodes back,
     * and no proper prefix of it is a complete value
     */
    ghost predicate Lawful() {
      forall e :: LineOk(e)
    }

    ghost predicate LineOk(e: Entry) {
      && '\n' !in encode(e)
      && encode(e) != ""
      && decode(encode(e)) == Some(e)
      && forall k :: 0 <= k < |encode(e)| ==> decode(encode(e)[..k]) == None
    }
  }

  // ----- Text -----

  function Lines(codec: Codec, entries: seq<Entry>): seq<string> {
    if entries == [] then []
    else Lines(codec, entries[..|entries| - 1]) + [codec.encode(entries[|entries| - 1])]
  }

  /** `serialiseAuditLines`: every line ends in a newline */
  function Serialise(codec: Codec, entries: seq<Entry>): string {
    if entries == [] then ""
    else Serialise(codec, entries[..|entries| - 1]) + codec.encode(entries[|entries| - 1]) + "\n"
  }

  function Decoded(codec: Codec, lines: seq<string>): seq<Entry> {
    if lines == [] then []
    else
      var rest, e := Decoded(codec, lines[..|lines| - 1]), codec.decode(lines[|lines| - 1]);
      if e.Some? then rest + [e.value] else rest
  }

  /** `parseAuditLines`: lines that do not parse are dropped */
  function Parse(codec: Codec, text: string): seq<Entry> {
    Decoded(codec, Split(text))
  }

  lemma DecodedOne(codec: Codec, lines: seq<string>, line: string)
    ensures Decoded(codec, lines + [line]) ==
            if codec.decode(line).Some? then Decoded(codec, lines) + [codec.decode(line).value] else Decoded(codec, lines)
  {
    assert (lines + [line])[..|lines|] == lines;
  }

  lemma {:induction false} SplitSerialised(codec: Codec, entries: seq<Entry>)
    requires codec.Lawful()
    ensures Split(Serialise(codec, entries)) == Lines(codec, entries) + [""]
  {
    if entries != [] {
      var n := |entries| - 1;
      var e := entries[n];
      SplitSerialised(codec, entries[..n]);
      OpenLine(codec, entries[..n], e, |codec.encode(e)|);
      var text := Serialise(codec, entries[..n]) + codec.encode(e);
      assert codec.encode(e)[..|codec.encode(e)|] == codec.encode(e);
      assert (text + "\n")[..|text|] == text;
    }
  }

  /** After whole lines, any part of the next line is just the open last piece. */
  lemma OpenLine(codec: Codec, entries: seq<Entry>, e: Entry, k: nat)
    requires codec.Lawful() && k <= |codec.encode(e)|
    requires Split(Serialise(codec, entries)) == Lines(codec, entries) + [""]
    ensures Split(Serialise(codec, entries) + codec.encode(e)[..k]) == Lines(codec, entries) + [codec.encode(e)[..k]]
  {
    var part := codec.encode(e)[..k];
    assert codec.LineOk(e);
    SplitConcat(Serialise(codec, entries), part);
    assert Init(Lines(codec, entries) + [""]) == Lines(codec, entries);
    assert "" + part == part;
    SplitLine(part);
  }

  lemma {:induction false} DecodedLines(codec: Codec, entries: seq<Entry>)
    requires codec.Lawful()
    ensures Decoded(codec, Lines(codec, entries)) == entries
  {
    if entries != [] {
      var n := |entries| - 1;
      DecodedLines(codec, entries[..n]);
      assert codec.LineOk(entries[n]);
      DecodedOne(codec, Lines(codec, entries[..n]), codec.encode(entries[n]));
      assert entries == entries[..n] + [entries[n]];
    }
  }

  lemma EmptyLineIsNoEntry(codec: Codec)
    requires codec.Lawful()
    ensures codec.decode("") == None
  {
    var e := Entry(0, "", None, "");
    assert codec.LineOk(e);
    assert codec.encode(e)[..0] == "";
  }

  lemma ParseUndoesSerialise(codec: Codec, entries: seq<Entry>)
    requires codec.Lawful()
    ensures Parse(codec, Serialise(codec, entries)) == entries
  {
    SplitSerialised(codec, entries);
    DecodedLines(codec, entries);
    EmptyLineIsNoEntry(codec);
    DecodedOne(codec, Lines(codec, entries), "");
  }

  /** A log cut off anywhere, as by a crash, still reads as a prefix of its entries. */
  lemma {:induction false} TruncatedLogIsAPrefix(codec: Codec, entries: seq<Entry>, cut: nat)
    requires codec.Lawful() && cut <= |Serialise(codec, entries)|
    ensures Parse(codec, Serialise(codec, entries)[..cut]) <= entries
  {
    var text := Serialise(codec, entries);
    if cut == |text| {
      assert text[..cut] == text;
      ParseUndoesSerialise(codec, entries);
    } else {
      var n := |entries| - 1;
      var whole := Serialise(codec, entries[..n]);
      var line := codec.encode(entries[n]);
      if cut <= |whole| {
        assert text[..cut] == whole[..cut];
        TruncatedLogIsAPrefix(codec, entries[..n], cut);
        assert entries[..n] <= entries;
      } else {
        CutInLastLine(codec, entries[..n], entries[n], cut - |whole|);
        assert text == whole + line + "\n";
        assert text[..cut] == whole + line[..cut - |whole|];
        assert entries == entries[..n] + [entries[n]];
      }
    }
  }

  lemma CutInLastLine(codec: Codec, entries: seq<Entry>, e: Entry, k: nat)
    requires codec.Lawful() && k <= |codec.encode(e)|
    ensures Parse(codec, Serialise(codec, entries) + codec.encode(e)[..k]) ==
            if k == |codec.encode(e)| then entries + [e] else entries
  {
    SplitSerialised(codec, entries);
    OpenLine(codec, entries, e, k);
    DecodedLines(codec, entries);
    DecodedOne(codec, Lines(codec, entries), codec.encode(e)[..k]);
    assert codec.LineOk(e);
    assert codec.encode(e)[..|codec.encode(e)|] == codec.encode(e);
  }

  // ----- The log -----

  /** A whole-object write: it lands, fails before it does, or lands and then reports a failure */
  datatype WriteFate = Written | FailedBefore | FailedAfter

  /** The store's object per day, the cached days, and entries of a day that could not be read yet */
  datatype State = State(objects: map<nat, string>, days: map<nat, seq<Entry>>, pending: map<nat, seq<Entry>>)

  datatype Attempt = Attempt(entry: Entry, day: nat, readable: bool, fate: WriteFate)

  function Get(m: map<nat, seq<Entry>>, day: nat): seq<Entry> {
    if day in m then m[day] else []
  }

  function StoredEntries(codec: Codec, s: State, day: nat): seq<Entry> {
    if day in s.objects then Parse(codec, s.objects[day]) else []
  }

  /** Everything the process knows of a day: its cache, or the object and what waits for a read */
  function Known(codec: Codec, s: State, day: nat): seq<Entry> {
    if day in s.days then s.days[day] else StoredEntries(codec, s, day) + Get(s.pending, day)
  }

  /** Cached entries the store does not have */
  predicate Unwritten(codec: Codec, s: State, day: nat) {
    day in s.days && StoredEntries(codec, s, day) != s.days[day]
  }

  ghost predicate Valid(s: State) {
    forall day :: day in s.days ==> day !in s.pending
  }

  function Succeeds(s: State, a: Attempt): bool {
    (a.day in s.days || a.readable) && a.fate == Written
  }

  /** What one queued `append` does */
  function AfterAppend(codec: Codec, s: State, a: Attempt): State {
    if a.day !in s.days && !a.readable then
      s.(pending := s.pending[a.day := Get(s.pending, a.day) + [a.entry]])
    else
      var entries := Known(codec, s, a.day) + [a.entry];
      var cached := s.(days := s.days[a.day := entries], pending := s.pending - {a.day});
      if a.fate == FailedBefore then cached
      else
        var written := cached.(objects := s.objects[a.day := Serialise(codec, entries)]);
        if a.fate == FailedAfter then written
        else written.(days := map d | d in written.days && d >= a.day :: written.days[d])
  }

  /** A failed read or write keeps the entry; one that lands stores everything known of its day. */
  lemma AppendKeepsItsDay(codec: Codec, s: State, a: Attempt)
    requires codec.Lawful() && Valid(s)
    ensures Valid(AfterAppend(codec, s, a))
    ensures Known(codec, AfterAppend(codec, s, a), a.day) == Known(codec, s, a.day) + [a.entry]
    ensures Succeeds(s, a) ==>
              StoredEntries(codec, AfterAppend(codec, s, a), a.day) == Known(codec, s, a.day) + [a.entry]
  {
    ParseUndoesSerialise(codec, Known(codec, s, a.day) + [a.entry]);
    if a.day !in s.days && !a.readable {
      assert StoredEntries(codec, s, a.day) + (Get(s.pending, a.day) + [a.entry]) ==
             Known(codec, s, a.day) + [a.entry];
    }
  }

  /** Another day is touched only by the eviction after a later day's write, which forgets exactly what was unwritten. */
  lemma AppendAndOtherDays(codec: Codec, s: State, a: Attempt, day: nat)
    requires Valid(s) && day != a.day
    ensures Known(codec, AfterAppend(codec, s, a), day) ==
            if Succeeds(s, a) && day < a.day then StoredEntries(codec, s, day) + Get(s.pending, day) else Known(codec, s, day)
    ensures Known(codec, AfterAppend(codec, s, a), day) == Known(codec, s, day) <==>
            !(Succeeds(s, a) && day < a.day && Unwritten(codec, s, day))
  {
    var s' := AfterAppend(codec, s, a);
    assert StoredEntries(codec, s', day) == StoredEntries(codec, s, day);
    assert Get(s'.pending, day) == Get(s.pending, day);
    if day in s.days {
      assert Get(s.pending, day) == [];
      assert StoredEntries(codec, s, day) + [] == StoredEntries(codec, s, day);
    }
  }

  function AfterAll(codec: Codec, s: State, attempts: seq<Attempt>): State {
    if attempts == [] then s
    else AfterAppend(codec, AfterAll(codec, s, attempts[..|attempts| - 1]), attempts[|attempts| - 1])
  }

  function EntriesOf(attempts: seq<Attempt>, day: nat): seq<Entry> {
    if attempts == [] then []
    else
      var rest, last := EntriesOf(attempts[..|attempts| - 1], day), attempts[|attempts| - 1];
      if last.day == day then rest + [last.entry] else rest
  }

  ghost predicate UpTo(attempts: seq<Attempt>, day: nat) {
    forall i :: 0 <= i < |attempts| ==> attempts[i].day <= day
  }

  /**
   * Until a later day is written, nothing of a day is lost: under any pattern of failures the next
   * append that succeeds stores the day's first entries and all since, in append order.
   */
  lemma {:induction false} NothingIsLostWithinADay(codec: Codec, s: State, attempts: seq<Attempt>, day: nat)
    requires codec.Lawful() && Valid(s) && UpTo(attempts, day)
    ensures Valid(AfterAll(codec, s, attempts))
    ensures Known(codec, AfterAll(codec, s, attempts), day) == Known(codec, s, day) + EntriesOf(attempts, day)
    ensures attempts != [] && attempts[|attempts| - 1].day == day &&
            Succeeds(AfterAll(codec, s, attempts[..|attempts| - 1]), attempts[|attempts| - 1]) ==>
              StoredEntries(codec, AfterAll(codec, s, attempts), day) == Known(codec, s, day) + EntriesOf(attempts, day)
  {
    if attempts == [] {
      assert Known(codec, s, day) + [] == Known(codec, s, day);
    } else {
      var n := |attempts| - 1;
      var a, before := attempts[n], AfterAll(codec, s, attempts[..n]);
      NothingIsLostWithinADay(codec, s, attempts[..n], day);
      AppendKeepsItsDay(codec, before, a);
      if a.day != day {
        AppendAndOtherDays(codec, before, a, day);
        assert EntriesOf(attempts, day) == EntriesOf(attempts[..n], day);
      }
    }
  }

  /** Across midnight an unwritten entry can be lost: the next day's write evicts it. */
  lemma MidnightLosesAnUnwrittenEntry(codec: Codec, entry: Entry, next: Entry)
    requires codec.Lawful()
    ensures var late := Attempt(entry, 1, true, FailedBefore);
            var early := Attempt(next, 2, true, Written);
            var s := AfterAll(codec, State(map[], map[], map[]), [late, early]);
            EntriesOf([late, early], 1) == [entry] && Known(codec, s, 1) == []
  {
    var late, early := Attempt(entry, 1, true, FailedBefore), Attempt(next, 2, true, Written);
    var start := State(map[], map[], map[]);
    assert [late, early][..1] == [late] && [late][..0] == [];
    var s1 := AfterAppend(codec, start, late);
    assert AfterAll(codec, start, [late]) == s1;
    assert Known(codec, start, 1) + [entry] == [entry];
    assert start.pending - {1} == map[];
    assert s1 == State(map[], map[1 := [entry]], map[]);
    AppendAndOtherDays(codec, s1, early, 1);
    assert EntriesOf([late], 1) == [entry];
  }

  class AuditLog {
    const codec: Codec
    var objects: map<nat, string>
    var days: map<nat, seq<Entry>>
    var pending: map<nat, seq<Entry>>

    ghost function View(): State
      reads this
    {
      State(objects, days, pending)
    }

    constructor (codec: Codec, objects: map<nat, string>)
      ensures this.codec == codec && View() == State(objects, map[], map[])
    {
      this.codec := codec;
      this.objects := objects;
      days, pending := map[], map[];
    }

    /** `load`: the cached entries, or the object's followed by what waited for the read. */
    method Load(day: nat, readable: bool) returns (entries: Option<seq<Entry>>)
      modifies this`days, this`pending
      ensures entries == if day in old(days) || readable then Some(old(Known(codec, View(), day))) else None
      ensures View() ==
              if day in old(days) || !readable then old(View())
              else State(objects, old(days)[day := old(Known(codec, View(), day))], old(pending) - {day})
    {
      if day in days {
        return Some(days[day]);
      }
      if !readable {
        return None;
      }
      var loaded := (if day in objects then Parse(codec, objects[day]) else []) + Get(pending, day);
      pending := pending - {day};
      days := days[day := loaded];
      entries := Some(loaded);
    }

    /** `append`, once the queue reaches it; the result is whether its promise resolves. */
    method Append(entry: Entry, day: nat, readable: bool, fate: WriteFate) returns (ok: bool)
      requires Valid(View())
      modifies this
      ensures View() == AfterAppend(codec, old(View()), Attempt(entry, day, readable, fate))
      ensures ok == Succeeds(old(View()), Attempt(entry, day, readable, fate))
    {
      var loaded := Load(day, readable);
      if loaded.None? {
        pending := pending[day := Get(pending, day) + [entry]];
        return false;
      }
      var entries := loaded.value + [entry];
      days := days[day := entries];
      ghost var cached := old(View()).(days := old(days)[day := entries], pending := old(pending) - {day});
      assert View() == cached by {
        assert pending == old(pending) - {day};
        assert days == old(days)[day := entries];
      }
      if fate == FailedBefore {
        return false;
      }
      objects := objects[day := Serialise(codec, entries)];
      if fate == FailedAfter {
        return false;
      }
      days := map d | d in days && d >= day :: days[d];
      ok := true;
    }
  }
}
