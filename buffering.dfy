/**
 * The window buffer of `dataAvailable` as a state machine over values: a fill
 * counter and four parallel buffers. While the counter is below the window
 * size a sample is stored at the counter's index; otherwise the window is
 * fitted, one record per index is emitted, a request is built for each dirty
 * index when publishing, and the counter returns to zero. The sample that
 * arrives on that emitting call is not stored.
 */
module Buffering {
  import opened Wrappers
  import opened Externals
  import Template

  /** One incoming stream element: its timestamp and its first field, a double. */
  datatype Sample = Sample(timestamp: int, value: real)

  /** One produced stream element: fields stream, processed and dirtiness, with a timestamp. */
  datatype Record = Record(stream: real, processed: real, dirtiness: real, timestamp: int)

  /** What `dataAvailable` reads besides the buffers; none of it changes after `initialize`. */
  datatype Settings = Settings(model: int, windowSize: nat, errorBound: real, publish: bool, prepared: Option<string>)

  /** The fill counter and the four buffers. */
  datatype Buffers = Buffers(count: nat, stream: seq<real>, timestamps: seq<int>, processed: seq<real>, dirtiness: seq<real>)

  /** All four buffers have length `n`, as `initialize` allocates them. */
  predicate Sized(b: Buffers, n: nat) {
    |b.stream| == n && |b.timestamps| == n && |b.processed| == n && |b.dirtiness| == n
  }

  /** The effect of one or more calls: the new buffers, and the records and requests produced, in order. */
  datatype Output = Output(buffers: Buffers, records: seq<Record>, requests: seq<string>)

  function WindowOf(s: Settings, b: Buffers): Window {
    Window(s.model, s.errorBound, s.windowSize, b.stream, b.timestamps)
  }

  /** The buffers after FitAndMarkDirty: `processed` and `dirtiness` rewritten, nothing else. */
  function Fitted(s: Settings, lib: Library, b: Buffers): (r: Buffers)
    requires Sized(b, s.windowSize)
    ensures Sized(r, s.windowSize)
  {
    var w := WindowOf(s, b);
    b.(processed := seq(s.windowSize, j requires 0 <= j => lib.fit(w, j).processed),
       dirtiness := seq(s.windowSize, j requires 0 <= j => lib.fit(w, j).dirtiness))
  }

  /** The records for the first `n` buffer entries, in index order. */
  function Records(b: Buffers, n: nat): seq<Record>
    requires n <= |b.stream| && n <= |b.processed| && n <= |b.dirtiness| && n <= |b.timestamps|
  {
    seq(n, j requires 0 <= j < n => Record(b.stream[j], b.processed[j], b.dirtiness[j], b.timestamps[j]))
  }

  /** The request for entry `j`: built only for a dirty entry while publishing, dropped if building it throws. */
  function RequestAt(s: Settings, lib: Library, b: Buffers, j: nat): seq<string>
    requires j < |b.dirtiness| && j < |b.timestamps|
  {
    if b.dirtiness[j] > 0.0 && s.publish then
      match Template.OutputAsXml(s.prepared, lib, b.dirtiness[j], b.timestamps[j], b.timestamps[j])
      case Some(xml) => [xml]
      case None => []
    else []
  }

  /** Entry `j` yields a request: it is dirty, publication is on and rendering it does not throw. */
  predicate Rendered(s: Settings, lib: Library, b: Buffers, j: nat)
    requires j < |b.dirtiness| && j < |b.timestamps|
  {
    b.dirtiness[j] > 0.0 && s.publish &&
    Template.OutputAsXml(s.prepared, lib, b.dirtiness[j], b.timestamps[j], b.timestamps[j]).Some?
  }

  /** The indices among the first `n` that yield a request, in increasing order. */
  function RenderedIndices(s: Settings, lib: Library, b: Buffers, n: nat): seq<nat>
    requires n <= |b.dirtiness| && n <= |b.timestamps|
  {
    if n == 0 then []
    else RenderedIndices(s, lib, b, n - 1) + (if Rendered(s, lib, b, n - 1) then [n - 1] else [])
  }

  /** The requests for the first `n` buffer entries, in index order. */
  function Requests(s: Settings, lib: Library, b: Buffers, n: nat): seq<string>
    requires n <= |b.dirtiness| && n <= |b.timestamps|
  {
    if n == 0 then [] else Requests(s, lib, b, n - 1) + RequestAt(s, lib, b, n - 1)
  }

  /** One call of `dataAvailable`. */
  function Step(s: Settings, lib: Library, b: Buffers, x: Sample): (o: Output)
    requires Sized(b, s.windowSize)
    ensures Sized(o.buffers, s.windowSize)
    ensures b.count <= s.windowSize ==> o.buffers.count <= s.windowSize
  {
    if b.count < s.windowSize then
      Output(b.(count := b.count + 1,
                stream := b.stream[b.count := x.value],
                timestamps := b.timestamps[b.count := x.timestamp]), [], [])
    else
      var f := Fitted(s, lib, b);
      Output(f.(count := 0), Records(f, s.windowSize), Requests(s, lib, f, s.windowSize))
  }

  /** Successive calls of `dataAvailable`, one per sample, in order. */
  function Run(s: Settings, lib: Library, b: Buffers, xs: seq<Sample>): (o: Output)
    requires Sized(b, s.windowSize)
    ensures Sized(o.buffers, s.windowSize)
    ensures b.count <= s.windowSize ==> o.buffers.count <= s.windowSize
    decreases |xs|
  {
    if xs == [] then Output(b, [], [])
    else
      var o := Run(s, lib, b, xs[..|xs| - 1]);
      var o' := Step(s, lib, o.buffers, xs[|xs| - 1]);
      Output(o'.buffers, o.records + o'.records, o.requests + o'.requests)
  }

  /** Continues `o` with the calls for `ys`. */
  function Then(s: Settings, lib: Library, o: Output, ys: seq<Sample>): Output
    requires Sized(o.buffers, s.windowSize)
  {
    var o' := Run(s, lib, o.buffers, ys);
    Output(o'.buffers, o.records + o'.records, o.requests + o'.requests)
  }

  function Values(xs: seq<Sample>): seq<real> {
    seq(|xs|, i requires 0 <= i < |xs| => xs[i].value)
  }

  function Stamps(xs: seq<Sample>): seq<int> {
    seq(|xs|, i requires 0 <= i < |xs| => xs[i].timestamp)
  }

  /**
   * The records one window of samples yields, computed from the samples alone:
   * the fit sees exactly these values and timestamps, and record `j` pairs
   * sample `j` with the fit's outputs at `j`.
   */
  function WindowRecords(s: Settings, lib: Library, xs: seq<Sample>): (r: seq<Record>)
    requires |xs| == s.windowSize
    ensures |r| == |xs|
  {
    var w := Window(s.model, s.errorBound, s.windowSize, Values(xs), Stamps(xs));
    seq(|xs|, j requires 0 <= j < |xs| =>
      Record(xs[j].value, lib.fit(w, j).processed, lib.fit(w, j).dirtiness, xs[j].timestamp))
  }

  /**
   * The records a fresh buffer yields for a stream of samples: each group of
   * `windowSize + 1` consecutive samples yields the window of its first
   * `windowSize`; the last sample of the group is dropped, and an incomplete
   * group at the end yields nothing yet.
   */
  function WindowedRecords(s: Settings, lib: Library, xs: seq<Sample>): seq<Record>
    decreases |xs|
  {
    if |xs| <= s.windowSize then []
    else WindowRecords(s, lib, xs[..s.windowSize]) + WindowedRecords(s, lib, xs[s.windowSize + 1..])
  }

  /** The number of dirty entries among the first `n`. */
  function DirtyCount(d: seq<real>, n: nat): nat
    requires n <= |d|
  {
    if n == 0 then 0 else DirtyCount(d, n - 1) + (if d[n - 1] > 0.0 then 1 else 0)
  }

  /**
   * A call below the window size stores the sample at the counter's index,
   * advances the counter and produces nothing; every other entry is unchanged.
   */
  lemma FillStep(s: Settings, lib: Library, b: Buffers, x: Sample)
    requires Sized(b, s.windowSize) && b.count < s.windowSize
    ensures var o := Step(s, lib, b, x);
      o.records == [] && o.requests == [] && o.buffers.count == b.count + 1 &&
      o.buffers.stream[b.count] == x.value && o.buffers.timestamps[b.count] == x.timestamp &&
      (forall j :: 0 <= j < s.windowSize && j != b.count ==>
        o.buffers.stream[j] == b.stream[j] && o.buffers.timestamps[j] == b.timestamps[j]) &&
      o.buffers.processed == b.processed && o.buffers.dirtiness == b.dirtiness
  {
  }

  /**
   * A call at (or past) the window size emits exactly `windowSize` records in
   * index order, each pairing the stored value and timestamp with the fit's
   * outputs; it resets the counter and does not store the incoming sample.
   */
  lemma EmitStep(s: Settings, lib: Library, b: Buffers, x: Sample)
    requires Sized(b, s.windowSize) && b.count >= s.windowSize
    ensures var o := Step(s, lib, b, x);
      var w := WindowOf(s, b);
      o.buffers.count == 0 && o.buffers.stream == b.stream && o.buffers.timestamps == b.timestamps &&
      |o.records| == s.windowSize &&
      (forall j :: 0 <= j < s.windowSize ==>
        o.records[j] == Record(b.stream[j], lib.fit(w, j).processed, lib.fit(w, j).dirtiness, b.timestamps[j]))
  {
  }

  /**
   * A request is built only for a dirty entry while publishing, and it is the
   * rendering of that entry with `from` and `to` both its timestamp; when every
   * rendering succeeds there is one per dirty entry.
   */
  lemma {:induction false} RequestsAreDirtyEntries(s: Settings, lib: Library, b: Buffers, n: nat)
    requires n <= |b.dirtiness| && n <= |b.timestamps|
    ensures forall xml :: xml in Requests(s, lib, b, n) ==>
      exists j :: 0 <= j < n && b.dirtiness[j] > 0.0 && s.publish &&
        Template.OutputAsXml(s.prepared, lib, b.dirtiness[j], b.timestamps[j], b.timestamps[j]) == Some(xml)
    ensures |Requests(s, lib, b, n)| <= DirtyCount(b.dirtiness, n)
    ensures !s.publish || s.prepared.None? ==> Requests(s, lib, b, n) == []
    ensures s.publish && (forall j :: 0 <= j < n ==>
        Template.OutputAsXml(s.prepared, lib, b.dirtiness[j], b.timestamps[j], b.timestamps[j]).Some?)
      ==> |Requests(s, lib, b, n)| == DirtyCount(b.dirtiness, n)
    ensures forall j :: 0 <= j < n && Rendered(s, lib, b, j) ==>
      Template.OutputAsXml(s.prepared, lib, b.dirtiness[j], b.timestamps[j], b.timestamps[j]).value
        in Requests(s, lib, b, n)
  {
    if n > 0 {
      RequestsAreDirtyEntries(s, lib, b, n - 1);
    }
  }

  /**
   * The requests are exactly the renderings of the entries that yield one, in
   * increasing index order: request `k` belongs to the `k`-th such entry, and
   * no such entry is skipped or rendered twice.
   */
  lemma {:induction false} RequestsInIndexOrder(s: Settings, lib: Library, b: Buffers, n: nat)
    requires n <= |b.dirtiness| && n <= |b.timestamps|
    ensures var idx, r := RenderedIndices(s, lib, b, n), Requests(s, lib, b, n);
      |r| == |idx| &&
      (forall k :: 0 <= k < |idx| ==>
        idx[k] < n && Rendered(s, lib, b, idx[k]) &&
        Some(r[k]) == Template.OutputAsXml(s.prepared, lib, b.dirtiness[idx[k]], b.timestamps[idx[k]], b.timestamps[idx[k]])) &&
      (forall k, l :: 0 <= k < l < |idx| ==> idx[k] < idx[l]) &&
      (forall j :: 0 <= j < n && Rendered(s, lib, b, j) ==> j in idx)
  {
    if n > 0 {
      RequestsInIndexOrder(s, lib, b, n - 1);
      if Rendered(s, lib, b, n - 1) {
        assert RequestAt(s, lib, b, n - 1) ==
          [Template.OutputAsXml(s.prepared, lib, b.dirtiness[n - 1], b.timestamps[n - 1], b.timestamps[n - 1]).value];
      } else {
        assert RequestAt(s, lib, b, n - 1) == [];
      }
    }
  }

  /**
   * End to end: with a request prepared from plain identity values, a dirty
   * entry whose rendered values are plain yields exactly the template holding
   * those values, with `from` and `to` both the entry's time.
   */
  lemma DirtyEntryRequest(s: Settings, lib: Library, b: Buffers, j: nat,
                          operator: string, deployment: string, station: string, sensor: string)
    requires j < |b.dirtiness| && j < |b.timestamps|
    requires s.publish && b.dirtiness[j] > 0.0
    requires s.prepared == Some(Template.PrepareRequest(operator, deployment, station, sensor))
    requires Template.Plain(operator) && Template.Plain(deployment) && Template.Plain(station) && Template.Plain(sensor)
    requires lib.isoTime(b.timestamps[j]).Some? && Template.Plain(lib.isoTime(b.timestamps[j]).value)
    requires Template.Plain(lib.showDouble(b.dirtiness[j]))
    ensures var time := lib.isoTime(b.timestamps[j]).value;
      RequestAt(s, lib, b, j) ==
        [Template.Layout(deployment, operator, station, sensor, time, time, lib.showDouble(b.dirtiness[j]))]
  {
    var time := lib.isoTime(b.timestamps[j]).value;
    Template.EventLayout(operator, deployment, station, sensor, lib.showDouble(b.dirtiness[j]), time, time);
  }

  /** Running two stretches of samples is running the first, then the second from where it left off. */
  lemma {:induction false} RunAppend(s: Settings, lib: Library, b: Buffers, xs: seq<Sample>, ys: seq<Sample>)
    requires Sized(b, s.windowSize)
    ensures Run(s, lib, b, xs + ys) == Then(s, lib, Run(s, lib, b, xs), ys)
    decreases |ys|
  {
    if ys == [] {
      assert xs + ys == xs;
    } else {
      var zs := xs + ys;
      assert zs[..|zs| - 1] == xs + ys[..|ys| - 1];
      assert zs[|zs| - 1] == ys[|ys| - 1];
      RunAppend(s, lib, b, xs, ys[..|ys| - 1]);
    }
  }

  /** From an empty buffer, up to `windowSize` calls store their samples in order and produce nothing. */
  lemma {:induction false} FillFromEmpty(s: Settings, lib: Library, b: Buffers, xs: seq<Sample>)
    requires Sized(b, s.windowSize) && b.count == 0 && |xs| <= s.windowSize
    ensures var o := Run(s, lib, b, xs);
      o.records == [] && o.requests == [] && o.buffers.count == |xs| &&
      o.buffers.stream[..|xs|] == Values(xs) && o.buffers.timestamps[..|xs|] == Stamps(xs)
    decreases |xs|
  {
    if xs != [] {
      var init := xs[..|xs| - 1];
      FillFromEmpty(s, lib, b, init);
      var o := Run(s, lib, b, init);
      var o' := Step(s, lib, o.buffers, xs[|xs| - 1]);
      assert o'.buffers.stream[..|xs|] == o.buffers.stream[..|init|] + [xs[|xs| - 1].value];
      assert o'.buffers.timestamps[..|xs|] == o.buffers.timestamps[..|init|] + [xs[|xs| - 1].timestamp];
      assert Values(xs) == Values(init) + [xs[|xs| - 1].value];
      assert Stamps(xs) == Stamps(init) + [xs[|xs| - 1].timestamp];
    }
  }

  /**
   * From an empty buffer, `windowSize + 1` calls produce exactly one window:
   * the records of the first `windowSize` samples. The last sample is dropped
   * and the counter is back at zero.
   */
  lemma OneWindow(s: Settings, lib: Library, b: Buffers, xs: seq<Sample>)
    requires Sized(b, s.windowSize) && b.count == 0 && |xs| == s.windowSize + 1
    ensures var o := Run(s, lib, b, xs);
      o.buffers.count == 0 && o.records == WindowRecords(s, lib, xs[..s.windowSize])
  {
    var n := s.windowSize;
    var init := xs[..n];
    assert xs[..|xs| - 1] == init;
    FillFromEmpty(s, lib, b, init);
    var o := Run(s, lib, b, init);
    assert o.buffers.stream == Values(init) && o.buffers.timestamps == Stamps(init);
    EmitStep(s, lib, o.buffers, xs[n]);
  }

  /**
   * Any stream of samples fed to an empty buffer yields exactly the records of
   * its complete windows, each taken from `windowSize` samples with the sample
   * after it dropped; the counter ends at the length modulo `windowSize + 1`.
   */
  lemma {:induction false} RunYieldsWindows(s: Settings, lib: Library, b: Buffers, xs: seq<Sample>)
    requires Sized(b, s.windowSize) && b.count == 0
    ensures var o := Run(s, lib, b, xs);
      o.records == WindowedRecords(s, lib, xs) && o.buffers.count == |xs| % (s.windowSize + 1)
    decreases |xs|
  {
    var n := s.windowSize;
    if |xs| <= n {
      FillFromEmpty(s, lib, b, xs);
      DivModUnique(|xs|, n + 1, 0, |xs|);
    } else {
      var head, rest := xs[..n + 1], xs[n + 1..];
      assert xs == head + rest;
      assert head[..n] == xs[..n];
      RunAppend(s, lib, b, head, rest);
      OneWindow(s, lib, b, head);
      var o := Run(s, lib, b, head);
      RunYieldsWindows(s, lib, o.buffers, rest);
      var o' := Run(s, lib, o.buffers, rest);
      assert Run(s, lib, b, xs) == Output(o'.buffers, o.records + o'.records, o.requests + o'.requests);
      assert WindowedRecords(s, lib, xs) == o.records + WindowedRecords(s, lib, rest);
      assert |xs| == |rest| + (n + 1);
      ModuloStep(|rest|, n + 1);
    }
  }

  lemma ModuloStep(a: nat, m: nat)
    requires m > 0
    ensures (a + m) % m == a % m && (a + m) / m == a / m + 1
  {
    var q, r := a / m, a % m;
    assert a == q * m + r;
    assert a + m == (q + 1) * m + r;
    DivModUnique(a + m, m, q + 1, r);
  }

  lemma DivModUnique(a: int, m: int, q: int, r: int)
    requires m > 0 && 0 <= r < m && a == q * m + r
    ensures a / m == q && a % m == r
  {
    var q', r' := a / m, a % m;
    var d := q - q';
    Distribute(q, q', m);
    assert d * m == r' - r;
    if d >= 1 {
      AtLeastOnce(d, m);
    } else if d <= -1 {
      AtLeastOnce(-d, m);
      Distribute(0, d, m);
    }
  }

  lemma Distribute(x: int, y: int, m: int)
    ensures (x - y) * m == x * m - y * m
  {
  }

  lemma AtLeastOnce(d: int, m: int)
    requires d >= 1 && m > 0
    ensures d * m >= m
  {
  }

  /** Exactly `windowSize` records per complete group of `windowSize + 1` samples. */
  lemma {:induction false} WindowedRecordCount(s: Settings, lib: Library, xs: seq<Sample>)
    ensures |WindowedRecords(s, lib, xs)| == (|xs| / (s.windowSize + 1)) * s.windowSize
    decreases |xs|
  {
    var n := s.windowSize;
    if |xs| > n {
      var rest := xs[n + 1..];
      WindowedRecordCount(s, lib, rest);
      assert |xs| == |rest| + (n + 1);
      ModuloStep(|rest|, n + 1);
      var k := |rest| / (n + 1);
      assert |xs| / (n + 1) == k + 1;
      Distribute(k + 1, 1, n);
    }
  }

  /** With a window size of zero, no call ever produces a record or a request. */
  lemma {:induction false} ZeroWindowSilent(s: Settings, lib: Library, b: Buffers, xs: seq<Sample>)
    requires s.windowSize == 0 && Sized(b, 0)
    ensures Run(s, lib, b, xs).records == [] && Run(s, lib, b, xs).requests == []
    decreases |xs|
  {
    if xs != [] {
      ZeroWindowSilent(s, lib, b, xs[..|xs| - 1]);
    }
  }
}
