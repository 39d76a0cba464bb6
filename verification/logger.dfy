/** The emission pipeline of logger.go: `New` builds a logger from a
    configuration whose unset strategies fall back to package defaults, and
    `Log` turns one call's key-value arguments into at most one write.

    The collaborators are parameters. The ambient metadata (`meta.All(ctx)`)
    is a map passed in; the caller resolver and timer are functions of an
    `Env`, the call site and wall-clock reading the runtime would offer them;
    the filter and formatter are functions over records; the sink is the
    sequence of writes made so far, and whether the next write succeeds is a
    flag. A panicking write becomes the `Panicked` outcome. */
module Logger {
  import opened Wrappers
  import opened Reserved
  import Formatter
  import LineParser

  /** One log line's key-value pairs. */
  type Record = map<string, string>

  /** What the runtime offers the built-in caller resolver and timer. */
  datatype Env = Env(callSite: string, now: string)

  type Caller = Env -> string
  type Filter = Record -> bool
  type Format = Record -> string
  type Timer = Env -> string

  /** Which sink a logger writes to. */
  datatype Writer = Writer(name: string)

  /** `Config` (logger.go:17-23): every strategy may be left unset. */
  datatype Config = Config(
    caller: Option<Caller>,
    filter: Option<Filter>,
    formatter: Option<Format>,
    timer: Option<Timer>,
    writer: Option<Writer>)

  /** `Logger` (logger.go:25-31): every strategy fixed. */
  datatype Logger = Logger(
    caller: Caller,
    filter: Filter,
    formatter: Format,
    timer: Timer,
    writer: Writer)

  /** The package-level `Default*` variables as they stand when `New` runs. */
  datatype Defaults = Defaults(
    caller: Caller,
    filter: Filter,
    formatter: Format,
    timer: Timer,
    writer: Writer)

  /** default.go: the call site found on the stack, the formatted wall clock,
      `JSONFormatter`, standard output. The level filter's source is not part
      of this model, so it is supplied. */
  function PackageDefaults(levelFilter: Filter): Defaults {
    Defaults((e: Env) => e.callSite, levelFilter, Formatter.JSONFormatter, (e: Env) => e.now, Writer("stdout"))
  }

  /** `New` (logger.go:33-59): never fails; an unset strategy is replaced by
      its default and a set one is kept. */
  function New(config: Config, defaults: Defaults): (r: Result<Logger, string>)
    ensures r.Success?
    ensures config.caller.Some? ==> forall e :: r.value.caller(e) == config.caller.value(e)
    ensures config.caller.None? ==> forall e :: r.value.caller(e) == defaults.caller(e)
    ensures config.filter.Some? ==> forall m :: r.value.filter(m) == config.filter.value(m)
    ensures config.filter.None? ==> forall m :: r.value.filter(m) == defaults.filter(m)
    ensures config.formatter.Some? ==> forall m :: r.value.formatter(m) == config.formatter.value(m)
    ensures config.formatter.None? ==> forall m :: r.value.formatter(m) == defaults.formatter(m)
    ensures config.timer.Some? ==> forall e :: r.value.timer(e) == config.timer.value(e)
    ensures config.timer.None? ==> forall e :: r.value.timer(e) == defaults.timer(e)
    ensures config.writer.Some? ==> r.value.writer == config.writer.value
    ensures config.writer.None? ==> r.value.writer == defaults.writer
  {
    var caller := if config.caller.None? then defaults.caller else config.caller.value;
    var filter := if config.filter.None? then defaults.filter else config.filter.value;
    var formatter := if config.formatter.None? then defaults.formatter else config.formatter.value;
    var timer := if config.timer.None? then defaults.timer else config.timer.value;
    var writer := if config.writer.None? then defaults.writer else config.writer.value;
    Success(Logger(caller, filter, formatter, timer, writer))
  }

  /** The line written instead of a record when the arguments do not pair up. */
  const IncompleteMessage: string := "given key-value pairs must be complete for logging"

  /** The result of one `Log` call: the writes the sink holds afterwards, or a
      panic raised by a failed write. The Go panic value is the writer's
      error; the model records instead the text whose write failed. */
  datatype Outcome = Returned(sink: seq<string>) | Panicked(sink: seq<string>, failed: string)

  /** `fmt.Fprintln` followed by `panic` on error: one write of `text` and a
      line terminator. */
  function Println(sink: seq<string>, text: string, writeOk: bool): Outcome {
    if writeOk then Returned(sink + [text + "\n"]) else Panicked(sink, text + "\n")
  }

  /** The call-site arguments read as consecutive key-value pairs. */
  function Pairs(kvs: seq<string>): seq<(string, string)> {
    seq(|kvs| / 2, i requires 0 <= i < |kvs| / 2 => (kvs[2 * i], kvs[2 * i + 1]))
  }

  function KeysOf(ps: seq<(string, string)>): set<string> {
    set p | p in ps :: p.0
  }

  /** The loop of logger.go:73-78: each pair is written into the map in turn. */
  function Overlay(m: Record, ps: seq<(string, string)>): (r: Record)
    ensures r.Keys == m.Keys + KeysOf(ps)
    decreases |ps|
  {
    if ps == [] then m
    else
      assert KeysOf(ps) == {ps[0].0} + KeysOf(ps[1..]);
      Overlay(m[ps[0].0 := ps[0].1], ps[1..])
  }

  /** logger.go:88-89: the caller location and the time, set last. Nothing
      else in the record changes; `stack` in particular keeps its value. */
  function Inject(m: Record, callSite: string, now: string): (r: Record)
    ensures r.Keys == m.Keys + {KeyCaller, KeyTime}
    ensures r[KeyCaller] == callSite && r[KeyTime] == now
    ensures forall k :: k in m && k != KeyCaller && k != KeyTime ==> r[k] == m[k]
  {
    m[KeyCaller := callSite][KeyTime := now]
  }

  /** `Logger.Log` (logger.go:61-97). */
  function Log(l: Logger, sink: seq<string>, ambient: Record, kvs: seq<string>, env: Env, writeOk: bool): (r: Outcome)
    ensures sink <= r.sink && |r.sink| <= |sink| + 1
    ensures r.Panicked? ==> !writeOk && r.sink == sink
  {
    if |kvs| % 2 != 0 then
      Println(sink, IncompleteMessage, writeOk)
    else
      var m := Overlay(ambient, Pairs(kvs));
      if l.filter(m) then Returned(sink)
      else Println(sink, l.formatter(Inject(m, l.caller(env), l.timer(env))), writeOk)
  }

  // ---------------------------------------------------------------------
  // Precedence of the merged record

  /** `i` is the last pair whose key is `k`. */
  ghost predicate LastPairFor(ps: seq<(string, string)>, k: string, i: int) {
    0 <= i < |ps| && ps[i].0 == k && forall j :: i < j < |ps| ==> ps[j].0 != k
  }

  /** A key takes its value from the last pair that names it; a key no pair
      names keeps its ambient value. */
  lemma {:induction false} OverlayPrecedence(m: Record, ps: seq<(string, string)>, k: string)
    ensures forall i :: LastPairFor(ps, k, i) ==> k in Overlay(m, ps) && Overlay(m, ps)[k] == ps[i].1
    ensures k !in KeysOf(ps) ==> (k in Overlay(m, ps) <==> k in m)
    ensures k !in KeysOf(ps) && k in m ==> Overlay(m, ps)[k] == m[k]
    decreases |ps|
  {
    if ps != [] {
      var m' := m[ps[0].0 := ps[0].1];
      var rest := ps[1..];
      OverlayPrecedence(m', rest, k);
      assert KeysOf(ps) == {ps[0].0} + KeysOf(rest);
      forall i | LastPairFor(ps, k, i)
        ensures k in Overlay(m, ps) && Overlay(m, ps)[k] == ps[i].1
      {
        if i > 0 {
          assert LastPairFor(rest, k, i - 1);
        } else {
          assert k !in KeysOf(rest) by {
            forall p | p in rest
              ensures p.0 != k
            {
              var j :| 0 <= j < |rest| && rest[j] == p;
              assert ps[j + 1] == p;
            }
          }
        }
      }
    }
  }

  /** Every key named by some pair has a last such pair. */
  lemma LastPairExists(ps: seq<(string, string)>, k: string)
    requires k in KeysOf(ps)
    ensures exists i :: LastPairFor(ps, k, i)
    decreases |ps|
  {
    var n := |ps| - 1;
    if ps[n].0 == k {
      assert LastPairFor(ps, k, n);
    } else {
      var init := ps[..n];
      assert ps == init + [ps[n]];
      assert k in KeysOf(init) by {
        var p :| p in ps && p.0 == k;
        var j :| 0 <= j < |ps| && ps[j] == p;
        assert init[j] == p;
      }
      LastPairExists(init, k);
      var i :| LastPairFor(init, k, i);
      assert LastPairFor(ps, k, i);
    }
  }

  /** The record `Log` formats, described without reference to how it is
      built: the ambient metadata, overridden by the call-site pairs (the last
      pair for a key winning), then `caller` and `time` set to what the
      resolver and timer return. */
  ghost predicate IsEmittedRecord(rec: Record, ambient: Record, kvs: seq<string>, callSite: string, now: string) {
    var ps := Pairs(kvs);
    && rec.Keys == ambient.Keys + KeysOf(ps) + {KeyCaller, KeyTime}
    && rec[KeyCaller] == callSite
    && rec[KeyTime] == now
    && (forall k, i :: k != KeyCaller && k != KeyTime && LastPairFor(ps, k, i) ==> rec[k] == ps[i].1)
    && (forall k :: k in ambient && k != KeyCaller && k != KeyTime && k !in KeysOf(ps) ==> rec[k] == ambient[k])
  }

  /** The record `Log` builds meets that description, and nothing else does. */
  lemma EmittedRecordSpec(ambient: Record, kvs: seq<string>, callSite: string, now: string)
    ensures IsEmittedRecord(Inject(Overlay(ambient, Pairs(kvs)), callSite, now), ambient, kvs, callSite, now)
    ensures forall rec :: IsEmittedRecord(rec, ambient, kvs, callSite, now) ==>
              rec == Inject(Overlay(ambient, Pairs(kvs)), callSite, now)
  {
    var ps := Pairs(kvs);
    var built := Inject(Overlay(ambient, ps), callSite, now);
    forall k, i | k != KeyCaller && k != KeyTime && LastPairFor(ps, k, i)
      ensures built[k] == ps[i].1
    {
      OverlayPrecedence(ambient, ps, k);
    }
    forall k | k in ambient && k != KeyCaller && k != KeyTime && k !in KeysOf(ps)
      ensures built[k] == ambient[k]
    {
      OverlayPrecedence(ambient, ps, k);
    }
    assert IsEmittedRecord(built, ambient, kvs, callSite, now);
    forall rec | IsEmittedRecord(rec, ambient, kvs, callSite, now)
      ensures rec == built
    {
      forall k | k in rec
        ensures rec[k] == built[k]
      {
        if k != KeyCaller && k != KeyTime {
          if k in KeysOf(ps) {
            LastPairExists(ps, k);
            var i :| LastPairFor(ps, k, i);
          }
        }
      }
    }
  }

  // ---------------------------------------------------------------------
  // What one call writes

  /** An odd number of arguments writes the fixed notice as the only line,
      or panics when that write fails. The notice is not shaped like a record
      line. */
  lemma IncompleteCall(l: Logger, sink: seq<string>, ambient: Record, kvs: seq<string>, env: Env, writeOk: bool)
    requires |kvs| % 2 == 1
    ensures writeOk ==> Log(l, sink, ambient, kvs, env, writeOk) == Returned(sink + [IncompleteMessage + "\n"])
    ensures !writeOk ==> Log(l, sink, ambient, kvs, env, writeOk) == Panicked(sink, IncompleteMessage + "\n")
    ensures LineParser.ParseLine(IncompleteMessage) == None
  {
  }

  /** With an odd number of arguments nothing but the arguments' count
      matters: not the metadata, the filter, the formatter, the caller
      resolver or the timer. */
  lemma IncompleteCallConsultsNothing(
    l1: Logger, l2: Logger, sink: seq<string>, ambient1: Record, ambient2: Record,
    kvs: seq<string>, env1: Env, env2: Env, writeOk: bool)
    requires |kvs| % 2 == 1
    ensures Log(l1, sink, ambient1, kvs, env1, writeOk) == Log(l2, sink, ambient2, kvs, env2, writeOk)
  {
  }

  /** The filter decides on the merged record before `caller` and `time` are
      set: when it says suppress, nothing is written and nothing can fail;
      otherwise exactly one line is written, or the write panics. */
  lemma FilterGate(l: Logger, sink: seq<string>, ambient: Record, kvs: seq<string>, env: Env, writeOk: bool)
    requires |kvs| % 2 == 0
    ensures l.filter(Overlay(ambient, Pairs(kvs))) ==> Log(l, sink, ambient, kvs, env, writeOk) == Returned(sink)
    ensures !l.filter(Overlay(ambient, Pairs(kvs))) && writeOk ==>
              Log(l, sink, ambient, kvs, env, writeOk).Returned? &&
              |Log(l, sink, ambient, kvs, env, writeOk).sink| == |sink| + 1
  {
  }

  /** A call fails exactly when it tries to write and the write fails: for an
      incomplete call, or for a complete one the filter lets through. */
  lemma WriteFailurePanics(l: Logger, sink: seq<string>, ambient: Record, kvs: seq<string>, env: Env, writeOk: bool)
    ensures Log(l, sink, ambient, kvs, env, writeOk).Panicked? <==>
            !writeOk && (|kvs| % 2 == 1 || !l.filter(Overlay(ambient, Pairs(kvs))))
  {
  }

  /** A complete call the filter lets through writes the formatter's text for
      the record the pipeline promises (`IsEmittedRecord`), then a line
      terminator; a failed write panics, and the outcome records that
      unwritten text. */
  lemma EmittedLine(l: Logger, sink: seq<string>, ambient: Record, kvs: seq<string>, env: Env, rec: Record)
    requires |kvs| % 2 == 0
    requires !l.filter(Overlay(ambient, Pairs(kvs)))
    requires IsEmittedRecord(rec, ambient, kvs, l.caller(env), l.timer(env))
    ensures Log(l, sink, ambient, kvs, env, true) == Returned(sink + [l.formatter(rec) + "\n"])
    ensures Log(l, sink, ambient, kvs, env, false) == Panicked(sink, l.formatter(rec) + "\n")
  {
    EmittedRecordSpec(ambient, kvs, l.caller(env), l.timer(env));
  }

  /** With the built-in formatter, the line written for a record without
      double quotes reads back as exactly that record. */
  lemma JSONLineDecodes(l: Logger, sink: seq<string>, ambient: Record, kvs: seq<string>, env: Env, rec: Record)
    requires forall m :: l.formatter(m) == Formatter.JSONFormatter(m)
    requires |kvs| % 2 == 0
    requires !l.filter(Overlay(ambient, Pairs(kvs)))
    requires IsEmittedRecord(rec, ambient, kvs, l.caller(env), l.timer(env))
    requires LineParser.QuoteFree(rec)
    ensures Log(l, sink, ambient, kvs, env, true) == Returned(sink + [Formatter.JSONFormatter(rec) + "\n"])
    ensures LineParser.Decode(Formatter.JSONFormatter(rec)) == Some(rec)
  {
    EmittedLine(l, sink, ambient, kvs, env, rec);
    LineParser.DecodeFormatted(rec);
  }
}
