/** QueryStringSerializer and QueryStringWriter<T>: the choice of a write
    function per type, the type-to-function memo, and the dispatch of a
    value to the write function of its type. */
module QueryString {
  import opened Wrappers
  import opened Exceptions
  import opened TextCommon
  import opened QueryStringDictionary

  /** The write functions QueryStringWriter<T>'s static constructor can
      choose from. */
  datatype WriteFn =
    /** QueryStringSerializer.WriteLateBoundObject. */
    | LateBound
    /** QueryStringWriter<T>.WriteIDictionary. */
    | IDictionaryWriter
    /** WriteType<T, JsvTypeSerializer>.WriteQueryString for T = t. */
    | TypeWriter(t: TypeDesc)
    /** The JSV writer's own write function for T = t. */
    | GenericWriter(t: TypeDesc)

  /** The write functions this layer calls but does not define. */
  datatype Collaborators = Collaborators(
    /** JsvTypeSerializer.GetWriteFn, used for dictionary keys and values. */
    jsvWriteFn: TypeDesc -> Writer,
    /** WriteType<T, JsvTypeSerializer>.WriteQueryString. */
    typeWriteFn: TypeDesc -> Writer,
    /** JsWriter<JsvTypeSerializer>.GetWriteFn<T>(). */
    genericWriteFn: TypeDesc -> Writer)

  /** The static constructor of QueryStringWriter<T>: the first that applies
      of System.Object, a dictionary type, a class or interface that is not
      enumerable and has a type writer, and the generic writer otherwise. */
  function ChooseWriteFn(t: TypeDesc): (fn: WriteFn)
    ensures fn == LateBound <==> t.isObject
    ensures fn == IDictionaryWriter <==> !t.isObject && t.isDictionary
    ensures fn == TypeWriter(t) <==>
      !t.isObject && !t.isDictionary && (t.isClass || t.isInterface) && !t.isEnumerable && t.hasTypeWriter
    ensures fn == GenericWriter(t) <==>
      !t.isObject && !t.isDictionary && !((t.isClass || t.isInterface) && !t.isEnumerable && t.hasTypeWriter)
  {
    if t.isObject then LateBound
    else if t.isDictionary then IDictionaryWriter
    else if (t.isClass || t.isInterface) && !t.isEnumerable && t.hasTypeWriter then TypeWriter(t)
    else GenericWriter(t)
  }

  /** What running an external write function does. */
  function ExternalRun(w: Written, f: Flags): Run
  {
    match w
    case Wrote(s) => Run(s, f, None)
    case Threw(x) => Run("", f, Some(x))
  }

  /** Running a write function other than the late-bound one on `value`,
      with the flags `f` current. */
  function DirectRun(fn: WriteFn, value: Option<Value>, f: Flags, ext: Collaborators): (r: Run)
    requires !fn.LateBound?
    ensures r.thrown.None? ==> r.flags.writingKeyCount == f.writingKeyCount
    ensures !fn.IDictionaryWriter? ==> r.flags == f
  {
    match fn
    case IDictionaryWriter => DictionaryRun(value, f, ext.jsvWriteFn)
    case TypeWriter(t) => ExternalRun(ext.typeWriteFn(t)(f, value), f)
    case GenericWriter(t) => ExternalRun(ext.genericWriteFn(t)(f, value), f)
  }

  /** WriteLateBoundObject: nothing for null; otherwise the write function
      of the value's runtime type. A value whose runtime type is
      System.Object itself would be sent back here without end. */
  function LateBoundRun(value: Option<Value>, f: Flags, ext: Collaborators): (r: Run)
    ensures value.None? ==> r == Run("", f, None)
    ensures r.thrown.None? ==> r.flags.writingKeyCount == f.writingKeyCount
    ensures value.Some? && value.value.runtimeType.isObject ==> r == Run("", f, Some(StackOverflow))
  {
    if value.None? then Run("", f, None)
    else
      var fn := ChooseWriteFn(value.value.runtimeType);
      if fn.LateBound? then Run("", f, Some(StackOverflow))
      else DirectRun(fn, value, f, ext)
  }

  /** Running any write function. */
  function ExecRun(fn: WriteFn, value: Option<Value>, f: Flags, ext: Collaborators): (r: Run)
    ensures r.thrown.None? ==> r.flags.writingKeyCount == f.writingKeyCount
    ensures fn.IDictionaryWriter? ==> !r.flags.queryStringMode
    ensures fn.TypeWriter? || fn.GenericWriter? ==> r.flags == f
  {
    if fn.LateBound? then LateBoundRun(value, f, ext) else DirectRun(fn, value, f, ext)
  }

  /** The late-bound writer writes nothing for null, and otherwise does what
      the write function chosen for the value's runtime type does. */
  lemma LateBoundDispatch(value: Option<Value>, f: Flags, ext: Collaborators)
    ensures value.None? ==> ExecRun(LateBound, value, f, ext) == Run("", f, None)
    ensures value.Some? && !value.value.runtimeType.isObject ==>
      ExecRun(LateBound, value, f, ext) == ExecRun(ChooseWriteFn(value.value.runtimeType), value, f, ext)
  {
  }

  /** The serializer's static state: the type-to-write-function cache. */
  class QueryStringSerializer {
    var writeFnCache: map<TypeDesc, WriteFn>

    /** Every cached function is the one the static constructor of
        QueryStringWriter<T> chooses for its type. */
    ghost predicate Valid()
      reads this
    {
      forall t :: t in writeFnCache ==> writeFnCache[t] == ChooseWriteFn(t)
    }

    constructor ()
      ensures Valid() && writeFnCache == map[]
    {
      writeFnCache := map[];
    }

    /** GetWriteFn: a cached function is returned and the cache left as it
        is; on a miss the chosen function is installed beside every
        existing entry and returned. Either way the result is the function
        the static constructor chooses for `t`. */
    method GetWriteFn(t: TypeDesc) returns (fn: WriteFn)
      requires Valid()
      modifies this
      ensures Valid()
      ensures t in old(writeFnCache) ==> fn == old(writeFnCache)[t] && writeFnCache == old(writeFnCache)
      ensures t !in old(writeFnCache) ==> writeFnCache == old(writeFnCache)[t := fn]
      ensures fn == ChooseWriteFn(t) && t in writeFnCache && writeFnCache[t] == fn
    {
      if t in writeFnCache {
        return writeFnCache[t];
      }
      fn := ChooseWriteFn(t);
      var snapshot := writeFnCache;
      var newCache := snapshot[t := fn];
      writeFnCache := newCache;
    }

    /** WriteLateBoundObject. */
    method WriteLateBoundObject(writer: TextSink, state: JsState, value: Option<Value>, ext: Collaborators)
      returns (thrown: Option<Exc>)
      requires Valid()
      modifies this, writer, state
      decreases 1
      ensures Valid() && old(writeFnCache).Keys <= writeFnCache.Keys
      ensures value.None? ==> writeFnCache == old(writeFnCache)
      ensures value.Some? ==>
        writeFnCache == old(writeFnCache)[value.value.runtimeType := ChooseWriteFn(value.value.runtimeType)]
      ensures var r := LateBoundRun(value, old(state.Snapshot()), ext);
        && writer.text == old(writer.text) + r.out
        && state.Snapshot() == r.flags
        && thrown == r.thrown
    {
      if value.None? {
        return None;
      }
      var writeFn := GetWriteFn(value.value.runtimeType);
      if writeFn.LateBound? {
        // The source calls this method again with the same value.
        return Some(StackOverflow);
      }
      thrown := Execute(writeFn, writer, state, value, ext);
    }

    /** Calling the delegate `fn` on `value`. */
    method Execute(fn: WriteFn, writer: TextSink, state: JsState, value: Option<Value>, ext: Collaborators)
      returns (thrown: Option<Exc>)
      requires Valid()
      modifies this, writer, state
      decreases if fn.LateBound? then 2 else 0
      ensures Valid() && old(writeFnCache).Keys <= writeFnCache.Keys
      ensures writeFnCache ==
        if fn.LateBound? && value.Some?
        then old(writeFnCache)[value.value.runtimeType := ChooseWriteFn(value.value.runtimeType)]
        else old(writeFnCache)
      ensures var r := ExecRun(fn, value, old(state.Snapshot()), ext);
        && writer.text == old(writer.text) + r.out
        && state.Snapshot() == r.flags
        && thrown == r.thrown
    {
      match fn
      case LateBound =>
        thrown := WriteLateBoundObject(writer, state, value, ext);
      case IDictionaryWriter =>
        thrown := WriteIDictionary(writer, state, value, ext.jsvWriteFn);
      case TypeWriter(t) =>
        thrown := WriteExternal(ext.typeWriteFn(t), writer, state, value);
      case GenericWriter(t) =>
        thrown := WriteExternal(ext.genericWriteFn(t), writer, state, value);
    }

    /** QueryStringWriter<T>.WriteObject for T = `t`: nothing when there is
        no writer, otherwise the write function chosen for `t`. */
    method WriteObject(t: TypeDesc, writer: TextSink?, state: JsState, value: Option<Value>, ext: Collaborators)
      returns (thrown: Option<Exc>)
      requires Valid()
      modifies this, writer, state
      ensures Valid() && old(writeFnCache).Keys <= writeFnCache.Keys
      ensures writeFnCache ==
        if writer != null && ChooseWriteFn(t).LateBound? && value.Some?
        then old(writeFnCache)[value.value.runtimeType := ChooseWriteFn(value.value.runtimeType)]
        else old(writeFnCache)
      ensures writer == null ==> thrown.None? && state.Snapshot() == old(state.Snapshot())
      ensures writer != null ==>
        var r := ExecRun(ChooseWriteFn(t), value, old(state.Snapshot()), ext);
        && writer.text == old(writer.text) + r.out
        && state.Snapshot() == r.flags
        && thrown == r.thrown
    {
      if writer == null {
        return None;
      }
      thrown := Execute(ChooseWriteFn(t), writer, state, value, ext);
    }

    /** SerializeToString: null throws on `value.GetType()`; otherwise the
        write function of the runtime type writes into a fresh buffer,
        whose text is returned unless the write threw. */
    method SerializeToString(state: JsState, value: Option<Value>, ext: Collaborators)
      returns (r: Result<string, Exc>)
      requires Valid()
      modifies this, state
      ensures Valid() && old(writeFnCache).Keys <= writeFnCache.Keys
      ensures value.None? ==> writeFnCache == old(writeFnCache)
      ensures value.Some? ==>
        writeFnCache == old(writeFnCache)[value.value.runtimeType := ChooseWriteFn(value.value.runtimeType)]
      ensures value.None? ==> r == Failure(NullReference) && state.Snapshot() == old(state.Snapshot())
      ensures value.Some? ==>
        var run := ExecRun(ChooseWriteFn(value.value.runtimeType), value, old(state.Snapshot()), ext);
        && state.Snapshot() == run.flags
        && r == if run.thrown.None? then Success(run.out) else Failure(run.thrown.value)
    {
      if value.None? {
        return Failure(NullReference);
      }
      var sb := new TextSink();
      var writeFn := GetWriteFn(value.value.runtimeType);
      ghost var run := ExecRun(writeFn, value, state.Snapshot(), ext);
      var thrown := Execute(writeFn, sb, state, value, ext);
      assert sb.text == "" + run.out == run.out;
      r := if thrown.None? then Success(sb.text) else Failure(thrown.value);
    }
  }

  /** An external write function called with the current flags; what it
      writes is appended. */
  method WriteExternal(w: Writer, writer: TextSink, state: JsState, value: Option<Value>)
    returns (thrown: Option<Exc>)
    modifies writer
    ensures var r := ExternalRun(w(state.Snapshot(), value), state.Snapshot());
      && writer.text == old(writer.text) + r.out
      && thrown == r.thrown
  {
    match w(state.Snapshot(), value)
    case Wrote(s) =>
      writer.Write(s);
      thrown := None;
    case Threw(x) =>
      thrown := Some(x);
  }
}
