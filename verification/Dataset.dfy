/** Reading the training dataset: validation, split and shuffle buffer (`_iter_dataset_records` in
    scripts/phase2_train_bam.py). The generator is modelled by the list of windows it yields. */
module Dataset {
  import opened Basics
  import opened Shuffling

  type Values = seq<real>

  datatype DatasetError = InvalidJson | MissingWindow | WrongLength | WrongOrder | NoWindows

  /** One line of the file. `window` absent: no list under that key; `orderLen` absent: no list there. */
  datatype Line = Blank | NotJson | Entry(window: Option<Values>, orderLen: Option<nat>, windowId: Option<int>)

  /** `bucket` is the hash of split seed and window id, as a fraction. */
  datatype Options = Options(
    expectedLen: nat, inputDims: nat, maxSamples: Option<int>, trainRatio: real, bucket: int -> real,
    shuffleBuffer: int)

  function SplitAccept(o: Options, id: int): bool {
    if o.trainRatio >= 1.0 then true
    else if o.trainRatio <= 0.0 then false
    else o.bucket(id) < o.trainRatio
  }

  /** With hashes in [0, 1), a window is taken if and only if its hash lies below the ratio; so a larger ratio takes
      all that a smaller one does. */
  lemma SplitTakes(o: Options, larger: Options, id: int)
    requires 0.0 <= o.bucket(id) < 1.0
    ensures SplitAccept(o, id) <==> o.bucket(id) < o.trainRatio
    ensures larger.bucket == o.bucket && larger.trainRatio >= o.trainRatio && SplitAccept(o, id) ==>
              SplitAccept(larger, id)
  {
  }

  datatype Verdict = Skip | Take(values: Values) | Raise(error: DatasetError)

  /** What becomes of line number `index`, counted from zero. */
  function Judge(o: Options, line: Line, index: nat): Verdict {
    match line
    case Blank => Skip
    case NotJson => Raise(InvalidJson)
    case Entry(window, orderLen, windowId) =>
      if window.None? then Raise(MissingWindow)
      else if |window.value| != o.expectedLen then Raise(WrongLength)
      else if orderLen.Some? && orderLen.value != o.inputDims then Raise(WrongOrder)
      else if SplitAccept(o, if windowId.Some? then windowId.value else index) then Take(window.value)
      else Skip
  }

  /** Exactly which lines raise what, and which are taken: the checks come in this order, and before the split. */
  lemma JudgedBy(o: Options, line: Line, index: nat)
    ensures Judge(o, line, index) == Raise(InvalidJson) <==> line.NotJson?
    ensures Judge(o, line, index) == Raise(MissingWindow) <==> line.Entry? && line.window.None?
    ensures Judge(o, line, index) == Raise(WrongLength)
            <==> line.Entry? && line.window.Some? && |line.window.value| != o.expectedLen
    ensures Judge(o, line, index) == Raise(WrongOrder)
            <==> && line.Entry? && line.window.Some? && |line.window.value| == o.expectedLen
                 && line.orderLen.Some? && line.orderLen.value != o.inputDims
    ensures Judge(o, line, index).Take?
            <==> && line.Entry? && line.window.Some? && |line.window.value| == o.expectedLen
                 && (line.orderLen.Some? ==> line.orderLen.value == o.inputDims)
                 && (line.windowId.Some? ==> SplitAccept(o, line.windowId.value))
                 && (line.windowId.None? ==> SplitAccept(o, index))
    ensures Judge(o, line, index).Take? ==> Judge(o, line, index).values == line.window.value
  {
  }

  function FirstError(o: Options, lines: seq<Line>): Option<DatasetError> {
    if lines == [] then None
    else
      var n := |lines| - 1;
      var before := FirstError(o, lines[..n]);
      if before.Some? then before
      else
        match Judge(o, lines[n], n)
        case Raise(e) => Some(e)
        case _ => None
  }

  /** The accepted windows of a file, up to the first line that raises. */
  function Accepted(o: Options, lines: seq<Line>): seq<Values> {
    if lines == [] then []
    else
      var n := |lines| - 1;
      if FirstError(o, lines).None? && Judge(o, lines[n], n).Take? then
        Accepted(o, lines[..n]) + [Judge(o, lines[n], n).values]
      else Accepted(o, lines[..n])
  }

  /** Reading on adds windows at the end; nothing is accepted after an error. */
  lemma {:induction false} AcceptedGrows(o: Options, lines: seq<Line>, i: nat)
    requires i <= |lines|
    ensures Accepted(o, lines[..i]) <= Accepted(o, lines)
    ensures FirstError(o, lines[..i]).Some? ==>
              FirstError(o, lines) == FirstError(o, lines[..i]) && Accepted(o, lines) == Accepted(o, lines[..i])
  {
    hide Judge;
    if i == |lines| {
      assert lines[..i] == lines;
    } else {
      var n := |lines| - 1;
      assert lines[..n][..i] == lines[..i];
      AcceptedGrows(o, lines[..n], i);
    }
  }

  lemma {:induction false} AcceptedLength(o: Options, lines: seq<Line>)
    ensures forall i :: 0 <= i < |Accepted(o, lines)| ==> |Accepted(o, lines)[i]| == o.expectedLen
  {
    if lines != [] {
      AcceptedLength(o, lines[..|lines| - 1]);
    }
  }

  /** One step of reading. */
  lemma ReadLine(o: Options, lines: seq<Line>, i: nat)
    requires i < |lines| && FirstError(o, lines[..i]).None?
    ensures var v := Judge(o, lines[i], i);
            && FirstError(o, lines[..i + 1]) == (if v.Raise? then Some(v.error) else None)
            && Accepted(o, lines[..i + 1])
               == if v.Take? then Accepted(o, lines[..i]) + [v.values] else Accepted(o, lines[..i])
  {
    hide Judge;
    assert lines[..i + 1][..i] == lines[..i];
  }

  predicate Full(o: Options, count: int) {
    o.maxSamples.Some? && count >= o.maxSamples.value
  }

  /** How many windows a reader takes at most: the limit is only looked at after a yield. */
  function Cap(o: Options, n: nat): nat {
    if o.maxSamples.None? then n else Min(n, Max(o.maxSamples.value, 1))
  }

  /** How many of n accepted windows have been yielded when a line is read: a buffer keeps back all it can
      hold but one. */
  function YieldedOf(o: Options, n: nat): nat {
    n - Min(n, Max(o.shuffleBuffer - 1, 0))
  }

  // ---------------------------------------------------------------------
  // What has been yielded and what is still in the buffer
  // ---------------------------------------------------------------------

  ghost predicate Split<T>(out: seq<T>, buffer: seq<T>, all: seq<T>) {
    multiset(out) + multiset(buffer) == multiset(all)
  }

  lemma SplitStart<T>()
    ensures Split<T>([], [], [])
  {
  }

  lemma SplitPush<T>(out: seq<T>, buffer: seq<T>, all: seq<T>, x: T)
    requires Split(out, buffer, all)
    ensures Split(out, buffer + [x], all + [x])
  {
  }

  /** `pop(i)`: what remains. */
  function Removed<T>(s: seq<T>, i: nat): (r: seq<T>)
    requires i < |s|
    ensures |r| == |s| - 1
  {
    s[..i] + s[i + 1..]
  }

  lemma SplitPop<T>(out: seq<T>, buffer: seq<T>, all: seq<T>, i: nat)
    requires Split(out, buffer, all) && i < |buffer|
    ensures Split(out + [buffer[i]], Removed(buffer, i), all)
  {
    assert buffer == buffer[..i] + [buffer[i]] + buffer[i + 1..];
  }

  lemma SplitSizes<T>(out: seq<T>, buffer: seq<T>, all: seq<T>)
    requires Split(out, buffer, all)
    ensures |out| + |buffer| == |all| && multiset(out) <= multiset(all)
    ensures buffer == [] ==> multiset(out) == multiset(all)
  {
    assert |multiset(out)| + |multiset(buffer)| == |multiset(all)|;
  }

  lemma SplitShuffled<T>(out: seq<T>, buffer: seq<T>, other: seq<T>, all: seq<T>)
    requires Split(out, buffer, all) && multiset(buffer) == multiset(other)
    ensures Split(out, other, all)
  {
  }

  lemma Prefix<T>(s: seq<T>, t: seq<T>)
    requires s <= t
    ensures multiset(s) <= multiset(t) && |s| <= |t|
  {
    assert t == s + t[|s|..];
  }

  /** The limit has been reached by the n-th yield or an earlier one. */
  predicate Reached(o: Options, n: nat) {
    o.maxSamples.Some? && n >= Max(o.maxSamples.value, 1)
  }

  /** What the generator promises about a file with accepted windows `all`. */
  ghost predicate Yields(o: Options, windows: seq<Values>, error: Option<DatasetError>, all: seq<Values>,
                         firstError: Option<DatasetError>) {
    && multiset(windows) <= multiset(all)
    && (error.Some? <==> firstError.Some? && !Reached(o, YieldedOf(o, |all|)))
    && (error.Some? ==> error == firstError && |windows| == YieldedOf(o, |all|))
    && (error.None? ==> |windows| == Cap(o, |all|))
    && (o.maxSamples.None? ==> error == firstError && (error.None? ==> multiset(windows) == multiset(all)))
    && (o.shuffleBuffer <= 0 ==> windows <= all)
  }

  /** Stopping early at the limit. */
  lemma StopAtLimit(o: Options, windows: seq<Values>, buffer: seq<Values>, sofar: seq<Values>, all: seq<Values>,
                    firstError: Option<DatasetError>)
    requires Split(windows, buffer, sofar) && sofar <= all && windows != []
    requires Full(o, |windows|) && (|windows| == 1 || !Full(o, |windows| - 1))
    requires o.shuffleBuffer <= 0 ==> windows == sofar
    requires firstError.Some? ==> |windows| == YieldedOf(o, |sofar|)
    ensures Yields(o, windows, None, all, firstError)
  {
    SplitSizes(windows, buffer, sofar);
    Prefix(sofar, all);
  }

  /** When the next window is accepted, one is yielded if there is no buffer or it is then full. */
  lemma Fills(o: Options, windows: seq<Values>, buffer: seq<Values>, sofar: seq<Values>)
    requires Split(windows, buffer, sofar) && |windows| == YieldedOf(o, |sofar|)
    ensures YieldedOf(o, |sofar| + 1)
            == |windows| + (if o.shuffleBuffer <= 0 || |buffer| + 1 >= o.shuffleBuffer then 1 else 0)
  {
    SplitSizes(windows, buffer, sofar);
  }

  lemma NothingYielded(o: Options)
    ensures YieldedOf(o, 0) == 0
  {
  }

  /** A random place among n. */
  function Pick(draw: nat -> nat, k: nat, n: nat): (i: nat)
    requires n > 0
    ensures i < n
  {
    draw(k) % n
  }

  /** One accepted window: it goes into the buffer, if there is one, and a random one leaves when it is full. */
  method Admit(o: Options, yielded: seq<Values>, kept: seq<Values>, values: Values, ghost sofar: seq<Values>,
               draw: nat -> nat)
    returns (windows: seq<Values>, buffer: seq<Values>, full: bool)
    requires Split(yielded, kept, sofar) && |yielded| == YieldedOf(o, |sofar|)
    requires yielded == [] || !Full(o, |yielded|)
    requires o.shuffleBuffer <= 0 ==> kept == [] && yielded == sofar
    requires o.shuffleBuffer > 0 ==> |kept| < o.shuffleBuffer
    ensures Split(windows, buffer, sofar + [values]) && |windows| == YieldedOf(o, |sofar| + 1)
    ensures o.shuffleBuffer <= 0 ==> buffer == [] && windows == sofar + [values]
    ensures o.shuffleBuffer > 0 ==> |buffer| < o.shuffleBuffer
    ensures full ==> windows != [] && Full(o, |windows|) && (|windows| == 1 || !Full(o, |windows| - 1))
    ensures !full ==> windows == [] || !Full(o, |windows|)
  {
    hide Split, YieldedOf, Full, Removed, Pick;
    Fills(o, yielded, kept, sofar);
    SplitPush(yielded, kept, sofar, values);
    if o.shuffleBuffer <= 0 {
      SplitPop(yielded, kept + [values], sofar + [values], 0);
      windows, buffer := yielded + [values], [];
      full := Full(o, |windows|);
    } else if |kept| + 1 < o.shuffleBuffer {
      windows, buffer, full := yielded, kept + [values], false;
    } else {
      var all := kept + [values];
      var index := Pick(draw, |yielded|, |all|);
      SplitPop(yielded, all, sofar + [values], index);
      windows, buffer := yielded + [all[index]], Removed(all, index);
      full := Full(o, |windows|);
    }
  }

  /** The generator run to its end, for any source of random numbers. `windows` are the yields, and
      `error` is what ended them. Without a limit they are the accepted windows in some order, in file
      order if there is no buffer; with a limit they are as many of the accepted windows as it allows. A line
      that is wrong is reported exactly if the yields before it have not reached the limit. */
  method IterDatasetRecords(o: Options, lines: seq<Line>, draw: nat -> nat)
    returns (windows: seq<Values>, error: Option<DatasetError>)
    ensures Yields(o, windows, error, Accepted(o, lines), FirstError(o, lines))
  {
    hide Judge, FirstError, Accepted, Split, Yields, YieldedOf;
    var buffer: seq<Values> := [];
    windows, error := [], None;
    NothingRead(o, lines);
    NothingYielded(o);
    SplitStart<Values>();
    for i := 0 to |lines|
      invariant FirstError(o, lines[..i]).None?
      invariant windows == [] || !Full(o, |windows|)
      invariant Split(windows, buffer, Accepted(o, lines[..i]))
      invariant o.shuffleBuffer <= 0 ==> buffer == [] && windows == Accepted(o, lines[..i])
      invariant o.shuffleBuffer > 0 ==> |buffer| < o.shuffleBuffer
      invariant |windows| == YieldedOf(o, |Accepted(o, lines[..i])|)
    {
      ReadLine(o, lines, i);
      AcceptedGrows(o, lines, i + 1);
      ghost var before, sofar := Accepted(o, lines[..i]), Accepted(o, lines[..i + 1]);
      match Judge(o, lines[i], i) {
        case Skip =>
        case Raise(e) =>
          error := Some(e);
          StopAtError(o, windows, buffer, before, Accepted(o, lines), e);
          return;
        case Take(values) =>
          var full;
          windows, buffer, full := Admit(o, windows, buffer, values, before, draw);
          if full {
            StopAtLimit(o, windows, buffer, sofar, Accepted(o, lines), FirstError(o, lines));
            return;
          }
      }
    }
    assert lines[..|lines|] == lines;
    windows := Drain(o, windows, buffer, Accepted(o, lines), draw);
  }

  /** The end of the file: what is left in the buffer, shuffled. */
  method Drain(o: Options, yielded: seq<Values>, buffer: seq<Values>, ghost all: seq<Values>, draw: nat -> nat)
    returns (windows: seq<Values>)
    requires Split(yielded, buffer, all) && (yielded == [] || !Full(o, |yielded|))
    requires o.shuffleBuffer <= 0 ==> buffer == [] && yielded == all
    ensures Yields(o, windows, None, all, None)
  {
    hide Split, Yields;
    windows := yielded;
    if buffer == [] {
      StopAtEnd(o, windows, all);
      return;
    }
    var shuffled := Shuffle(buffer, draw, |yielded|);
    ShuffledPermutes(buffer, draw, |yielded|, |buffer| - 1);
    SplitShuffled(windows, buffer, shuffled, all);
    for j := 0 to |shuffled|
      invariant Split(windows, shuffled[j..], all) && (windows == [] || !Full(o, |windows|))
      invariant j > 0 ==> windows != []
    {
      SplitPop(windows, shuffled[j..], all, 0);
      assert Removed(shuffled[j..], 0) == shuffled[j + 1..];
      windows := windows + [shuffled[j]];
      if Full(o, |windows|) {
        StopAtLimit(o, windows, shuffled[j + 1..], all, all, None);
        return;
      }
    }
    assert shuffled[|shuffled|..] == [];
    StopAtEnd(o, windows, all);
  }

  lemma StopAtError(o: Options, windows: seq<Values>, buffer: seq<Values>, sofar: seq<Values>, all: seq<Values>,
                    e: DatasetError)
    requires Split(windows, buffer, sofar) && sofar == all && (windows == [] || !Full(o, |windows|))
    requires o.shuffleBuffer <= 0 ==> windows == sofar
    requires |windows| == YieldedOf(o, |sofar|)
    ensures Yields(o, windows, Some(e), all, Some(e))
  {
    SplitSizes(windows, buffer, sofar);
    Prefix(sofar, all);
  }

  lemma StopAtEnd(o: Options, windows: seq<Values>, all: seq<Values>)
    requires Split(windows, [], all) && (windows == [] || !Full(o, |windows|))
    requires o.shuffleBuffer <= 0 ==> windows == all
    ensures Yields(o, windows, None, all, None)
  {
    SplitSizes(windows, [], all);
  }

  lemma NothingRead(o: Options, lines: seq<Line>)
    ensures FirstError(o, lines[..0]).None? && Accepted(o, lines[..0]) == []
  {
  }
}
