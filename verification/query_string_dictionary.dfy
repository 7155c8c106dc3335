/** QueryStringWriter<T>.WriteIDictionary: renders an IDictionary as
    `key=value&key=value`, driving the JsState flag protocol around each
    key and each value. */
module QueryStringDictionary {
  import opened Wrappers
  import opened Exceptions
  import opened Strings
  import opened TextCommon

  /** What a write leaves behind: the text appended to the sink, the JsState
      flags afterwards, and the exception that escaped, if any. */
  datatype Run = Run(out: string, flags: Flags, thrown: Option<Exc>)

  /** What WriteIDictionary carries from one entry to the next: the key and
      value writers once chosen, whether a pair was written, and the flags. */
  datatype Cursor = Cursor(keyFn: Option<Writer>, valueFn: Option<Writer>, ranOnce: bool, flags: Flags)

  /** One iteration of the loop: go on with the text it appended, or stop
      with the text appended before the throw and the flags left behind. */
  datatype Step = Next(text: string, cursor: Cursor) | Stop(text: string, flags: Flags, error: Exc)

  /** One pair, from the flags `f`: the key written with the key count
      raised and IsWritingValue cleared, the count lowered again, "=", then
      the value written with IsWritingValue set, which is cleared after. */
  function PairRun(keyFn: Writer, valueFn: Writer, key: Value, value: Value, f: Flags): (r: Run)
    ensures r.thrown.None? ==> r.flags == f.(isWritingValue := false)
    ensures r.thrown.Some? ==>
      r.flags == f.(writingKeyCount := f.writingKeyCount + 1, isWritingValue := false) ||
      r.flags == f.(isWritingValue := true)
  {
    var keyFlags := f.(writingKeyCount := f.writingKeyCount + 1, isWritingValue := false);
    match keyFn(keyFlags, Some(key))
    case Threw(x) => Run("", keyFlags, Some(x))
    case Wrote(k) =>
      var valueFlags := keyFlags.(writingKeyCount := keyFlags.writingKeyCount - 1, isWritingValue := true);
      match valueFn(valueFlags, Some(value))
      case Threw(x) => Run(k + "=", valueFlags, Some(x))
      case Wrote(v) => Run(k + "=" + v, valueFlags.(isWritingValue := false), None)
  }

  /** One entry: skipped when its value is null; otherwise the writers are
      fixed from this entry's key and value types if not yet chosen, "&"
      goes before every pair but the first, and the pair is written. */
  function EntryStep(e: Entry, c: Cursor, jsv: TypeDesc -> Writer): (s: Step)
    ensures e.value.None? ==> s == Next("", c)
    ensures s.Next? && e.value.Some? ==>
      s.cursor.ranOnce && s.cursor.keyFn.Some? && s.cursor.valueFn.Some? &&
      s.cursor.flags == c.flags.(isWritingValue := false)
    ensures s.Next? && c.keyFn.Some? ==> s.cursor.keyFn == c.keyFn
    ensures s.Next? && c.valueFn.Some? ==> s.cursor.valueFn == c.valueFn
    ensures c.ranOnce && e.value.Some? ==> "&" <= s.text
  {
    if e.value.None? then Next("", c)
    else
      var keyFn := if c.keyFn.Some? then c.keyFn.value else jsv(e.key.runtimeType);
      var valueFn := if c.valueFn.Some? then c.valueFn.value else jsv(e.value.value.runtimeType);
      var sep := if c.ranOnce then "&" else "";
      var r := PairRun(keyFn, valueFn, e.key, e.value.value, c.flags);
      if r.thrown.Some? then Stop(sep + r.out, r.flags, r.thrown.value)
      else Next(sep + r.out, Cursor(Some(keyFn), Some(valueFn), true, r.flags))
  }

  /** The loop over the entries in the dictionary's enumeration order. */
  function Entries(es: seq<Entry>, c: Cursor, jsv: TypeDesc -> Writer): (r: Run)
    decreases |es|
    ensures r.flags.queryStringMode == c.flags.queryStringMode
    ensures r.thrown.None? ==> r.flags.writingKeyCount == c.flags.writingKeyCount
  {
    if es == [] then Run("", c.flags, None)
    else
      match EntryStep(es[0], c, jsv)
      case Stop(t, f, x) => Run(t, f, Some(x))
      case Next(t, c') =>
        var r := Entries(es[1..], c', jsv);
        r.(out := t + r.out)
  }

  /** The whole of WriteIDictionary, from the flags `f` current at the call:
      QueryStringMode is set, the argument is cast to IDictionary (null and
      non-dictionaries throw), the entries are written, and the `finally`
      clears QueryStringMode on every exit. */
  function DictionaryRun(oMap: Option<Value>, f: Flags, jsv: TypeDesc -> Writer): (r: Run)
    ensures !r.flags.queryStringMode
    ensures r.thrown.None? ==> r.flags.writingKeyCount == f.writingKeyCount
    ensures oMap.None? ==> r == Run("", f.(queryStringMode := false), Some(NullReference))
    ensures oMap.Some? && !oMap.value.Dictionary? ==> r == Run("", f.(queryStringMode := false), Some(InvalidCast))
  {
    var start := f.(queryStringMode := true);
    var r := if oMap.None? then Run("", start, Some(NullReference))
             else if !oMap.value.Dictionary? then Run("", start, Some(InvalidCast))
             else Entries(oMap.value.entries, Cursor(None, None, false, start), jsv);
    r.(flags := r.flags.(queryStringMode := false))
  }

  /** The imperative writer: appends to `writer`, updates `state`, and
      reports the exception that escapes, exactly as DictionaryRun says. */
  method WriteIDictionary(writer: TextSink, state: JsState, oMap: Option<Value>, jsv: TypeDesc -> Writer)
    returns (thrown: Option<Exc>)
    modifies writer, state
    ensures var r := DictionaryRun(oMap, old(state.Snapshot()), jsv);
      && writer.text == old(writer.text) + r.out
      && state.Snapshot() == r.flags
      && thrown == r.thrown
  {
    state.queryStringMode := true;
    if oMap.None? {
      thrown := Some(NullReference);
    } else if !oMap.value.Dictionary? {
      thrown := Some(InvalidCast);
    } else {
      thrown := WriteEntries(writer, state, oMap.value.entries, jsv);
    }
    state.queryStringMode := false;
  }

  /** The `foreach` loop of WriteIDictionary, with `writeKeyFn`,
      `writeValueFn` and `ranOnce` starting unset. */
  method WriteEntries(writer: TextSink, state: JsState, map_: seq<Entry>, jsv: TypeDesc -> Writer)
    returns (thrown: Option<Exc>)
    modifies writer, state
    ensures var r := Entries(map_, Cursor(None, None, false, old(state.Snapshot())), jsv);
      && writer.text == old(writer.text) + r.out
      && state.Snapshot() == r.flags
      && thrown == r.thrown
  {
    var keyFn: Option<Writer> := None;
    var valueFn: Option<Writer> := None;
    var ranOnce := false;
    ghost var whole := Entries(map_, Cursor(keyFn, valueFn, ranOnce, state.Snapshot()), jsv);
    ghost var rest := whole;
    thrown := None;
    var i := 0;
    while i < |map_| && thrown.None?
      invariant 0 <= i <= |map_|
      invariant thrown.None? ==> rest == Entries(map_[i..], Cursor(keyFn, valueFn, ranOnce, state.Snapshot()), jsv)
      invariant thrown.Some? ==> rest == Run("", state.Snapshot(), thrown)
      invariant old(writer.text) + whole.out == writer.text + rest.out
      invariant whole.flags == rest.flags && whole.thrown == rest.thrown
      decreases |map_| - i, if thrown.None? then 1 else 0
    {
      ghost var text0 := writer.text;
      ghost var c := Cursor(keyFn, valueFn, ranOnce, state.Snapshot());
      EntriesAt(map_, i, c, jsv);
      keyFn, valueFn, ranOnce, thrown := WriteEntry(writer, state, map_[i], keyFn, valueFn, ranOnce, jsv);
      ghost var step := EntryStep(map_[i], c, jsv);
      if thrown.None? {
        assert step.Next? && step.cursor == Cursor(keyFn, valueFn, ranOnce, state.Snapshot());
        rest := Entries(map_[i + 1..], step.cursor, jsv);
        AppendAssoc(text0, step.text, rest.out);
        i := i + 1;
      } else {
        assert step.Stop?;
        rest := Run("", state.Snapshot(), thrown);
      }
    }
  }

  /** Entries from position `i` on: the step at `i`, then the rest. */
  lemma EntriesAt(es: seq<Entry>, i: nat, c: Cursor, jsv: TypeDesc -> Writer)
    requires i < |es|
    ensures Entries(es[i..], c, jsv) ==
      match EntryStep(es[i], c, jsv)
      case Stop(t, f, x) => Run(t, f, Some(x))
      case Next(t, c') => var r := Entries(es[i + 1..], c', jsv); r.(out := t + r.out)
  {
    assert es[i..][0] == es[i] && es[i..][1..] == es[i + 1..];
  }

  /** The body of the loop, for one entry: takes the locals `writeKeyFn`,
      `writeValueFn` and `ranOnce` and gives them back updated, with the
      exception a writer threw, if any. */
  method WriteEntry(writer: TextSink, state: JsState, e: Entry,
                    keyFn0: Option<Writer>, valueFn0: Option<Writer>, ranOnce0: bool, jsv: TypeDesc -> Writer)
    returns (keyFn: Option<Writer>, valueFn: Option<Writer>, ranOnce: bool, thrown: Option<Exc>)
    modifies writer, state
    ensures var s := EntryStep(e, Cursor(keyFn0, valueFn0, ranOnce0, old(state.Snapshot())), jsv);
      && writer.text == old(writer.text) + s.text
      && (s.Next? <==> thrown.None?)
      && (s.Next? ==> s.cursor == Cursor(keyFn, valueFn, ranOnce, state.Snapshot()))
      && (s.Stop? ==> thrown == Some(s.error) && state.Snapshot() == s.flags)
  {
    keyFn, valueFn, ranOnce, thrown := keyFn0, valueFn0, ranOnce0, None;
    var key := e.key;
    var dictionaryValue := e.value;
    if dictionaryValue.None? {
      return;
    }
    if keyFn.None? {
      keyFn := Some(jsv(key.runtimeType));
    }
    if valueFn.None? {
      valueFn := Some(jsv(dictionaryValue.value.runtimeType));
    }
    ghost var text0 := writer.text;
    ghost var sep := if ranOnce0 then "&" else "";
    if ranOnce {
      writer.Write("&");
    } else {
      ranOnce := true;
    }
    assert writer.text == text0 + sep;
    ghost var pair := PairRun(keyFn.value, valueFn.value, key, dictionaryValue.value, state.Snapshot());
    thrown := WritePair(writer, state, keyFn.value, valueFn.value, key, dictionaryValue.value);
    AppendAssoc(text0, sep, pair.out);
  }

  /** Writing one pair with the chosen writers, as PairRun says. */
  method WritePair(writer: TextSink, state: JsState, keyFn: Writer, valueFn: Writer, key: Value, value: Value)
    returns (thrown: Option<Exc>)
    modifies writer, state
    ensures var r := PairRun(keyFn, valueFn, key, value, old(state.Snapshot()));
      && writer.text == old(writer.text) + r.out
      && state.Snapshot() == r.flags
      && thrown == r.thrown
  {
    ghost var text0 := writer.text;
    state.writingKeyCount := state.writingKeyCount + 1;
    state.isWritingValue := false;
    var k := keyFn(state.Snapshot(), Some(key));
    if k.Threw? {
      return Some(k.error);
    }
    writer.Write(k.text);
    state.writingKeyCount := state.writingKeyCount - 1;
    writer.Write("=");
    AppendAssoc(text0, k.text, "=");
    state.isWritingValue := true;
    var v := valueFn(state.Snapshot(), Some(value));
    if v.Threw? {
      return Some(v.error);
    }
    writer.Write(v.text);
    AppendAssoc(text0, k.text + "=", v.text);
    state.isWritingValue := false;
    thrown := None;
  }

  // ---------------------------------------------------------------------
  // Reference definitions: the output and the flags entry by entry,
  // without the loop's state.

  /** The entries whose value is not null, in enumeration order. */
  function NonNull(es: seq<Entry>): (r: seq<Entry>)
    ensures forall i :: 0 <= i < |r| ==> r[i].value.Some?
    ensures |r| <= |es|
  {
    if es == [] then []
    else if es[0].value.None? then NonNull(es[1..])
    else [es[0]] + NonNull(es[1..])
  }

  /** The flags a key writer must see when the count on entry was `count`. */
  function KeyFlags(count: int): Flags
  {
    Flags(true, count + 1, false)
  }

  /** The flags a value writer must see when the count on entry was `count`. */
  function ValueFlags(count: int): Flags
  {
    Flags(true, count, true)
  }

  /** Neither fixed writer throws on this entry, if its value is not null. */
  ghost predicate PairWrites(e: Entry, wk: Writer, wv: Writer, count: int)
  {
    e.value.Some? ==> wk(KeyFlags(count), Some(e.key)).Wrote? && wv(ValueFlags(count), e.value).Wrote?
  }

  /** "key=value" for a non-null entry written by the fixed writers. */
  ghost function PairText(e: Entry, wk: Writer, wv: Writer, count: int): string
    requires e.value.Some? && PairWrites(e, wk, wv, count)
  {
    wk(KeyFlags(count), Some(e.key)).text + "=" + wv(ValueFlags(count), e.value).text
  }

  /** With the writers `wk` and `wv`, no non-null entry makes either throw. */
  ghost predicate WritesCleanly(es: seq<Entry>, wk: Writer, wv: Writer, count: int)
  {
    forall i :: 0 <= i < |es| ==> PairWrites(es[i], wk, wv, count)
  }

  lemma WritesCleanlyCons(es: seq<Entry>, wk: Writer, wv: Writer, count: int)
    requires es != []
    ensures WritesCleanly(es, wk, wv, count) <==>
      PairWrites(es[0], wk, wv, count) && WritesCleanly(es[1..], wk, wv, count)
  {
    if PairWrites(es[0], wk, wv, count) && WritesCleanly(es[1..], wk, wv, count) {
      forall i | 0 < i < |es|
        ensures PairWrites(es[i], wk, wv, count)
      {
        assert es[1..][i - 1] == es[i];
      }
    }
  }

  /** "key=value" for every non-null entry, in order, each written by the
      fixed writers under the flags of the protocol. */
  ghost function Pairs(es: seq<Entry>, wk: Writer, wv: Writer, count: int): (ps: seq<string>)
    requires WritesCleanly(es, wk, wv, count)
    ensures |ps| == |NonNull(es)|
  {
    if es == [] then []
    else
      WritesCleanlyCons(es, wk, wv, count);
      var rest := Pairs(es[1..], wk, wv, count);
      if es[0].value.None? then rest
      else [PairText(es[0], wk, wv, count)] + rest
  }

  // ---------------------------------------------------------------------
  // What the loop computes, stated against the reference definitions.

  /** A pair written from flags with the mode on and count `count`: it
      succeeds exactly when neither writer throws, and then writes
      "key=value", restores the count and leaves IsWritingValue false. */
  lemma PairRunClean(wk: Writer, wv: Writer, e: Entry, count: int, b: bool)
    requires e.value.Some?
    ensures var r := PairRun(wk, wv, e.key, e.value.value, Flags(true, count, b));
      && (r.thrown.None? <==> PairWrites(e, wk, wv, count))
      && (PairWrites(e, wk, wv, count) ==>
            r.out == PairText(e, wk, wv, count) && r.flags == Flags(true, count, false))
  {
  }

  /** A null-valued entry contributes nothing, not even a separator, and
      leaves every local and flag as it was: the loop over all entries is
      the loop over the non-null ones. */
  lemma {:induction false} NullEntriesSkipped(es: seq<Entry>, c: Cursor, jsv: TypeDesc -> Writer)
    decreases |es|
    ensures Entries(es, c, jsv) == Entries(NonNull(es), c, jsv)
  {
    if es != [] {
      if es[0].value.None? {
        NullEntriesSkipped(es[1..], c, jsv);
        assert Entries(es, c, jsv) == Entries(es[1..], c, jsv);
      } else {
        var ns := NonNull(es);
        assert ns[0] == es[0] && ns[1..] == NonNull(es[1..]);
        match EntryStep(es[0], c, jsv)
        case Stop(_, _, _) =>
        case Next(_, c') =>
          NullEntriesSkipped(es[1..], c', jsv);
      }
    }
  }

  /** Skipping a null-valued first entry changes neither the loop, nor the
      non-null entries, nor whether and what the fixed writers write. */
  lemma NullHead(es: seq<Entry>, c: Cursor, wk: Writer, wv: Writer, count: int, jsv: TypeDesc -> Writer)
    requires es != [] && es[0].value.None?
    ensures Entries(es, c, jsv) == Entries(es[1..], c, jsv)
    ensures NonNull(es) == NonNull(es[1..])
    ensures WritesCleanly(es, wk, wv, count) <==> WritesCleanly(es[1..], wk, wv, count)
    ensures WritesCleanly(es, wk, wv, count) ==> Pairs(es, wk, wv, count) == Pairs(es[1..], wk, wv, count)
  {
    WritesCleanlyCons(es, wk, wv, count);
  }

  /** Once the first pair is out and the writers are fixed: the rest of the
      loop succeeds exactly when the fixed writers never throw, and then
      appends "&" and the pair for every further non-null entry, leaves the
      key count where it was and IsWritingValue false. */
  lemma {:induction false} EntriesAfterFirst(es: seq<Entry>, wk: Writer, wv: Writer, count: int, b: bool, jsv: TypeDesc -> Writer)
    decreases |es|
    ensures var r := Entries(es, Cursor(Some(wk), Some(wv), true, Flags(true, count, b)), jsv);
      && (r.thrown.None? <==> WritesCleanly(es, wk, wv, count))
      && (WritesCleanly(es, wk, wv, count) ==>
            && r.out == (if NonNull(es) == [] then "" else "&" + Join(Pairs(es, wk, wv, count), "&"))
            && r.flags == Flags(true, count, b && NonNull(es) == []))
  {
    var c := Cursor(Some(wk), Some(wv), true, Flags(true, count, b));
    if es != [] {
      var rest := es[1..];
      if es[0].value.None? {
        NullHead(es, c, wk, wv, count, jsv);
        EntriesAfterFirst(rest, wk, wv, count, b, jsv);
      } else {
        WritesCleanlyCons(es, wk, wv, count);
        PairRunClean(wk, wv, es[0], count, b);
        EntriesAfterFirst(rest, wk, wv, count, false, jsv);
        assert NonNull(es) == [es[0]] + NonNull(rest);
        if WritesCleanly(es, wk, wv, count) {
          var p := PairText(es[0], wk, wv, count);
          var ps := Pairs(rest, wk, wv, count);
          var next := Cursor(Some(wk), Some(wv), true, Flags(true, count, false));
          assert EntryStep(es[0], c, jsv) == Next("&" + p, next);
          JoinCons(p, ps, "&");
          if ps != [] {
            AppendAssoc("&", p, "&" + Join(ps, "&"));
            AppendAssoc(p, "&", Join(ps, "&"));
          }
        }
      }
    }
  }

  /** From the start of the loop: the writers are those of the first
      non-null entry's key and value types; the loop succeeds exactly when
      they never throw on the non-null entries, and then its output is the
      pairs joined by "&". */
  lemma {:induction false} EntriesFromStart(es: seq<Entry>, count: int, b: bool, jsv: TypeDesc -> Writer)
    requires NonNull(es) != []
    decreases |es|
    ensures var first := NonNull(es)[0];
      var wk := jsv(first.key.runtimeType);
      var wv := jsv(first.value.value.runtimeType);
      var r := Entries(es, Cursor(None, None, false, Flags(true, count, b)), jsv);
      && (r.thrown.None? <==> WritesCleanly(es, wk, wv, count))
      && (WritesCleanly(es, wk, wv, count) ==>
            && r.out == Join(Pairs(es, wk, wv, count), "&")
            && r.flags == Flags(true, count, false))
  {
    var c := Cursor(None, None, false, Flags(true, count, b));
    var rest := es[1..];
    var first := NonNull(es)[0];
    var wk := jsv(first.key.runtimeType);
    var wv := jsv(first.value.value.runtimeType);
    if es[0].value.None? {
      NullHead(es, c, wk, wv, count, jsv);
      EntriesFromStart(rest, count, b, jsv);
    } else {
      assert first == es[0];
      WritesCleanlyCons(es, wk, wv, count);
      PairRunClean(wk, wv, es[0], count, b);
      EntriesAfterFirst(rest, wk, wv, count, false, jsv);
      if WritesCleanly(es, wk, wv, count) {
        var p := PairText(es[0], wk, wv, count);
        var ps := Pairs(rest, wk, wv, count);
        var next := Cursor(Some(wk), Some(wv), true, Flags(true, count, false));
        assert EntryStep(es[0], c, jsv) == Next("" + p, next);
        assert "" + p == p;
        JoinCons(p, ps, "&");
        if ps != [] {
          AppendAssoc(p, "&", Join(ps, "&"));
        }
      }
    }
  }

  /** A dictionary that is empty or whose values are all null writes
      nothing, throws nothing, and leaves the key count and IsWritingValue as
      they were. */
  lemma AllNullWritesNothing(t: TypeDesc, es: seq<Entry>, f: Flags, jsv: TypeDesc -> Writer)
    requires NonNull(es) == []
    ensures DictionaryRun(Some(Dictionary(t, es)), f, jsv) == Run("", f.(queryStringMode := false), None)
  {
    NullEntriesSkipped(es, Cursor(None, None, false, f.(queryStringMode := true)), jsv);
  }

  /** The query-string form of a dictionary with at least one non-null
      value: the key and value writers are those of the first such entry's
      types and serve every later entry; the write succeeds exactly when
      they do not throw, and then the output is `key=value` for every
      non-null entry in enumeration order, joined by "&", with the key count
      restored, IsWritingValue false and QueryStringMode off. */
  lemma DictionaryWritesPairs(t: TypeDesc, es: seq<Entry>, f: Flags, jsv: TypeDesc -> Writer)
    requires NonNull(es) != []
    ensures var first := NonNull(es)[0];
      var wk := jsv(first.key.runtimeType);
      var wv := jsv(first.value.value.runtimeType);
      var r := DictionaryRun(Some(Dictionary(t, es)), f, jsv);
      && (r.thrown.None? <==> WritesCleanly(es, wk, wv, f.writingKeyCount))
      && (WritesCleanly(es, wk, wv, f.writingKeyCount) ==>
            && r.out == Join(Pairs(es, wk, wv, f.writingKeyCount), "&")
            && r.flags == Flags(false, f.writingKeyCount, false))
  {
    EntriesFromStart(es, f.writingKeyCount, f.isWritingValue, jsv);
  }

  /** Along the loop the mode stays on, and a throw leaves the flags either
      as the key writer saw them (count raised) or as the value writer saw
      them (IsWritingValue set). */
  lemma {:induction false} EntriesThrowFlags(es: seq<Entry>, c: Cursor, jsv: TypeDesc -> Writer)
    requires c.flags.queryStringMode
    decreases |es|
    ensures var r := Entries(es, c, jsv);
      var n := c.flags.writingKeyCount;
      r.thrown.Some? ==> r.flags == Flags(true, n + 1, false) || r.flags == Flags(true, n, true)
  {
    if es != [] {
      match EntryStep(es[0], c, jsv)
      case Stop(_, _, _) =>
      case Next(_, c') =>
        EntriesThrowFlags(es[1..], c', jsv);
    }
  }

  /** When a key or value writer throws, only QueryStringMode is reset: the
      `finally` does not cover the key count or IsWritingValue, so the count
      stays raised after a key writer's throw and IsWritingValue stays set
      after a value writer's throw. */
  lemma DictionaryThrowFlags(t: TypeDesc, es: seq<Entry>, f: Flags, jsv: TypeDesc -> Writer)
    ensures var r := DictionaryRun(Some(Dictionary(t, es)), f, jsv);
      var n := f.writingKeyCount;
      r.thrown.Some? ==> r.flags == Flags(false, n + 1, false) || r.flags == Flags(false, n, true)
  {
    EntriesThrowFlags(es, Cursor(None, None, false, f.(queryStringMode := true)), jsv);
  }

  /** A writer that writes a scalar's literal as it is. */
  function LiteralWriter(g: Flags, v: Option<Value>): Written
  {
    if v.Some? && v.value.Scalar? then Wrote(v.value.literal) else Wrote("")
  }

  /** The dictionary {"a": 1, "c": null, "b": 2}, in that order. */
  function SampleEntries(str: TypeDesc, num: TypeDesc): seq<Entry>
  {
    [Entry(Scalar(str, "a"), Some(Scalar(num, "1"))),
     Entry(Scalar(str, "c"), None),
     Entry(Scalar(str, "b"), Some(Scalar(num, "2")))]
  }

  /** The sample's pairs, written by LiteralWriter: the null entry has none. */
  lemma SamplePairs(str: TypeDesc, num: TypeDesc, count: int)
    ensures var es := SampleEntries(str, num);
      && NonNull(es) == [es[0], es[2]]
      && WritesCleanly(es, LiteralWriter, LiteralWriter, count)
      && Pairs(es, LiteralWriter, LiteralWriter, count) == ["a=1", "b=2"]
  {
    var es := SampleEntries(str, num);
    var tail := [es[2]];
    assert es[1..][1..] == tail && tail[1..] == [];
    assert NonNull(tail) == tail;
    assert NonNull(es[1..]) == tail;
    assert "a" + "=" + "1" == "a=1" && "b" + "=" + "2" == "b=2";
    assert Pairs(tail, LiteralWriter, LiteralWriter, count) == ["b=2"];
    assert Pairs(es[1..], LiteralWriter, LiteralWriter, count) == ["b=2"];
  }

  /** With writers that write a scalar's literal as it is, the dictionary
      {"a": 1, "c": null, "b": 2} is written as "a=1&b=2". */
  lemma NullValueOmittedExample(t: TypeDesc, str: TypeDesc, num: TypeDesc, f: Flags)
    ensures DictionaryRun(Some(Dictionary(t, SampleEntries(str, num))), f, (ty: TypeDesc) => LiteralWriter)
         == Run("a=1&b=2", Flags(false, f.writingKeyCount, false), None)
  {
    var jsv := (ty: TypeDesc) => LiteralWriter;
    SamplePairs(str, num, f.writingKeyCount);
    DictionaryWritesPairs(t, SampleEntries(str, num), f, jsv);
    assert Join(["a=1", "b=2"], "&") == "a=1" + "&" + "b=2" == "a=1&b=2";
  }
}
