/** The cases of `Test_Logger_Log` (logger_test.go), and the `stack` example
    of the line format, as lemmas about the model. The tests build their
    logger with a static timer returning "time" and a buffer as the sink, and
    leave everything else to the defaults; the default level filter's source
    is not part of this model, so each case states what it needs that filter
    to decide. */
module Scenarios {
  import opened Wrappers
  import opened Order
  import opened Formatter
  import opened Logger

  /** The logger of logger_test.go:116-123. */
  function TestLogger(levelFilter: Filter): Logger {
    New(Config(None, None, None, Some((e: Env) => "time"), Some(Writer("buffer"))),
        PackageDefaults(levelFilter)).value
  }

  /** The value under `stack` is copied verbatim. */
  lemma StackValueUnquoted(v: string)
    ensures JSONFormatter(map["stack" := v]) == "{ " + "\"stack\":" + v + " }"
  {
    OneKeyLine("stack", v);
  }

  /** The same text under another key is quoted like any other value. */
  lemma OtherValueQuoted(v: string)
    ensures JSONFormatter(map["trace" := v]) == "{ " + "\"trace\":\"" + v + "\"" + " }"
  {
    OneKeyLine("trace", v);
  }

  /** The record the tests' calls build from `level` and `message` pairs. */
  lemma LevelMessageRecord(level: string)
    ensures Overlay(map[], Pairs(["level", level, "message", "foo"])) == map["level" := level, "message" := "foo"]
  {
    var ps := [("level", level), ("message", "foo")];
    assert Pairs(["level", level, "message", "foo"]) == ps;
    assert ps[1..] == [("message", "foo")];
    assert ps[1..][1..] == [];
    assert Overlay(map[], ps) == Overlay(map["level" := level], ps[1..]);
    assert Overlay(map["level" := level], ps[1..]) == Overlay(map["level" := level, "message" := "foo"], []);
  }

  /** Case 0 (logger_test.go:34-42): a debug line the level filter suppresses
      leaves the sink empty. */
  lemma DebugLineSuppressed(levelFilter: Filter, env: Env)
    requires levelFilter(map["level" := "debug", "message" := "foo"])
    ensures Log(TestLogger(levelFilter), [], map[], ["level", "debug", "message", "foo"], env, true) == Returned([])
  {
    LevelMessageRecord("debug");
  }

  /** What the tests' logger does with its strategies. */
  lemma TestLoggerStrategies(levelFilter: Filter, env: Env)
    ensures TestLogger(levelFilter).caller(env) == env.callSite
    ensures TestLogger(levelFilter).timer(env) == "time"
    ensures forall m :: TestLogger(levelFilter).filter(m) == levelFilter(m)
    ensures forall m :: TestLogger(levelFilter).formatter(m) == JSONFormatter(m)
    ensures TestLogger(levelFilter).writer == Writer("buffer")
  {
  }

  // ---------------------------------------------------------------------
  // The lines the tests' logger writes to its buffer, one parenthesised group per pair

  /** Cases 1-3: caller, level, message, time. */
  function LevelLine(callSite: string, level: string): string {
    "{ " + ("\"caller\":\"" + callSite + "\"") + ", " + ("\"level\":\"" + level + "\"") +
    ", " + ("\"message\":\"" + "foo" + "\"") + ", " + ("\"time\":\"" + "time" + "\"") + " }"
  }

  /** Case 5: the metadata keys `foo` and `key` sorted in among the rest. */
  function MetadataLine(callSite: string): string {
    "{ " + ("\"caller\":\"" + callSite + "\"") + ", " + ("\"foo\":\"" + "bar" + "\"") +
    ", " + ("\"key\":\"" + "val" + "\"") + ", " + ("\"level\":\"" + "error" + "\"") +
    ", " + ("\"message\":\"" + "foo" + "\"") + ", " + ("\"time\":\"" + "time" + "\"") + " }"
  }

  /** Case 6: the trace follows `"stack":` without quotes. */
  function StackLine(callSite: string, trace: string): string {
    "{ " + ("\"caller\":\"" + callSite + "\"") + ", " + ("\"level\":\"" + "warning" + "\"") +
    ", " + ("\"message\":\"" + "foo" + "\"") + ", " + ("\"stack\":" + trace) +
    ", " + ("\"time\":\"" + "time" + "\"") + " }"
  }

  // ---------------------------------------------------------------------
  // The text of each pair those lines hold

  lemma CallerPair(v: string)
    ensures RenderPair("caller", v) == "\"caller\":\"" + v + "\""
  {
  }

  lemma FooPair(v: string)
    ensures RenderPair("foo", v) == "\"foo\":\"" + v + "\""
  {
  }

  lemma KeyPair(v: string)
    ensures RenderPair("key", v) == "\"key\":\"" + v + "\""
  {
  }

  lemma LevelPair(v: string)
    ensures RenderPair("level", v) == "\"level\":\"" + v + "\""
  {
  }

  lemma MessagePair(v: string)
    ensures RenderPair("message", v) == "\"message\":\"" + v + "\""
  {
  }

  lemma StackPair(v: string)
    ensures RenderPair("stack", v) == "\"stack\":" + v
  {
  }

  lemma TimePair(v: string)
    ensures RenderPair("time", v) == "\"time\":\"" + v + "\""
  {
  }

  lemma JoinTwo(p0: string, p1: string)
    ensures Open + Join([p0, p1], Separator) + Close == "{ " + p0 + ", " + p1 + " }"
  {
    assert [p0, p1][1..] == [p1];
  }

  lemma JoinThree(p0: string, p1: string, p2: string)
    ensures Open + Join([p0, p1, p2], Separator) + Close == "{ " + p0 + ", " + p1 + ", " + p2 + " }"
  {
    JoinTwo(p1, p2);
    assert [p0, p1, p2] == [p0] + [p1, p2];
    PrependFramed(p0, [p1, p2], p1 + ", " + p2);
  }

  lemma JoinFour(p0: string, p1: string, p2: string, p3: string)
    ensures Open + Join([p0, p1, p2, p3], Separator) + Close
         == "{ " + p0 + ", " + p1 + ", " + p2 + ", " + p3 + " }"
  {
    assert Open + Join([p0, p1, p2, p3], Separator) + Close == "{ " + p0 + ", " + (p1 + ", " + p2 + ", " + p3) + " }" by {
      JoinThree(p1, p2, p3);
      assert [p0, p1, p2, p3] == [p0] + [p1, p2, p3];
      PrependFramed(p0, [p1, p2, p3], p1 + ", " + p2 + ", " + p3);
    }
  }

  lemma JoinFive(p0: string, p1: string, p2: string, p3: string, p4: string)
    ensures Open + Join([p0, p1, p2, p3, p4], Separator) + Close
         == "{ " + p0 + ", " + p1 + ", " + p2 + ", " + p3 + ", " + p4 + " }"
  {
    assert Open + Join([p0, p1, p2, p3, p4], Separator) + Close == "{ " + p0 + ", " + (p1 + ", " + p2 + ", " + p3 + ", " + p4) + " }" by {
      JoinFour(p1, p2, p3, p4);
      assert [p0, p1, p2, p3, p4] == [p0] + [p1, p2, p3, p4];
      PrependFramed(p0, [p1, p2, p3, p4], p1 + ", " + p2 + ", " + p3 + ", " + p4);
    }
  }

  lemma JoinSix(p0: string, p1: string, p2: string, p3: string, p4: string, p5: string)
    ensures Open + Join([p0, p1, p2, p3, p4, p5], Separator) + Close
         == "{ " + p0 + ", " + p1 + ", " + p2 + ", " + p3 + ", " + p4 + ", " + p5 + " }"
  {
    assert Open + Join([p0, p1, p2, p3, p4, p5], Separator) + Close == "{ " + p0 + ", " + (p1 + ", " + p2 + ", " + p3 + ", " + p4 + ", " + p5) + " }" by {
      JoinFive(p1, p2, p3, p4, p5);
      assert [p0, p1, p2, p3, p4, p5] == [p0] + [p1, p2, p3, p4, p5];
      PrependFramed(p0, [p1, p2, p3, p4, p5], p1 + ", " + p2 + ", " + p3 + ", " + p4 + ", " + p5);
    }
  }

  /** Prepending one part to a framed listing. */
  lemma PrependFramed(p0: string, ps: seq<string>, listing: string)
    requires ps != []
    requires Open + Join(ps, Separator) + Close == "{ " + listing + " }"
    ensures Open + Join([p0] + ps, Separator) + Close == "{ " + p0 + ", " + listing + " }"
  {
    var rest := Join(ps, Separator);
    JoinCons(p0, ps, Separator);
    assert rest == listing by {
      assert rest == (Open + rest + Close)[2..|rest| + 2];
      assert listing == ("{ " + listing + " }")[2..|listing| + 2];
    }
  }

  lemma RenderFour(e0: (string, string), e1: (string, string), e2: (string, string), e3: (string, string))
    ensures RenderAll([e0, e1, e2, e3])
         == [RenderPair(e0.0, e0.1), RenderPair(e1.0, e1.1), RenderPair(e2.0, e2.1), RenderPair(e3.0, e3.1)]
  {
  }

  lemma RenderFive(e0: (string, string), e1: (string, string), e2: (string, string), e3: (string, string),
                   e4: (string, string))
    ensures RenderAll([e0, e1, e2, e3, e4])
         == [RenderPair(e0.0, e0.1), RenderPair(e1.0, e1.1), RenderPair(e2.0, e2.1), RenderPair(e3.0, e3.1),
             RenderPair(e4.0, e4.1)]
  {
  }

  lemma RenderSix(e0: (string, string), e1: (string, string), e2: (string, string), e3: (string, string),
                  e4: (string, string), e5: (string, string))
    ensures RenderAll([e0, e1, e2, e3, e4, e5])
         == [RenderPair(e0.0, e0.1), RenderPair(e1.0, e1.1), RenderPair(e2.0, e2.1), RenderPair(e3.0, e3.1),
             RenderPair(e4.0, e4.1), RenderPair(e5.0, e5.1)]
  {
  }

  // ---------------------------------------------------------------------
  // Cases 1-3

  /** The formatted record of cases 1-3. */
  lemma LevelMessageFormatted(callSite: string, level: string)
    ensures JSONFormatter(map["level" := level, "message" := "foo", "caller" := callSite, "time" := "time"])
         == LevelLine(callSite, level)
  {
    var rec := map["level" := level, "message" := "foo", "caller" := callSite, "time" := "time"];
    var es := [("caller", callSite), ("level", level), ("message", "foo"), ("time", "time")];
    assert StrictlyAscending(seq(|es|, i requires 0 <= i < |es| => es[i].0)) by {
      assert seq(|es|, i requires 0 <= i < |es| => es[i].0) == ["caller", "level", "message", "time"];
    }
    forall k | k in rec
      ensures exists i :: 0 <= i < |es| && es[i].0 == k
    {
      if k == "caller" { assert es[0].0 == k; }
      else if k == "level" { assert es[1].0 == k; }
      else if k == "message" { assert es[2].0 == k; }
      else { assert es[3].0 == k; }
    }
    FormatOfEntries(rec, es);
    LevelMessageText(callSite, level);
  }

  lemma LevelMessageText(callSite: string, level: string)
    ensures Open + Join(RenderAll([("caller", callSite), ("level", level), ("message", "foo"), ("time", "time")]), Separator) + Close
         == LevelLine(callSite, level)
  {
    RenderFour(("caller", callSite), ("level", level), ("message", "foo"), ("time", "time"));
    JoinFour(RenderPair("caller", callSite), RenderPair("level", level), RenderPair("message", "foo"),
             RenderPair("time", "time"));
    CallerPair(callSite);
    LevelPair(level);
    MessagePair("foo");
    TimePair("time");
  }

  /** Cases 1-3 (logger_test.go:43-69): an info, warning or error line the
      level filter lets through is written once, keys in ascending order,
      with the call site and the static time injected. */
  lemma LevelLineWritten(levelFilter: Filter, level: string, env: Env)
    requires !levelFilter(map["level" := level, "message" := "foo"])
    ensures Log(TestLogger(levelFilter), [], map[], ["level", level, "message", "foo"], env, true)
         == Returned([LevelLine(env.callSite, level) + "\n"])
  {
    var m := map["level" := level, "message" := "foo"];
    LevelMessageRecord(level);
    TestLogWrites(levelFilter, map[], ["level", level, "message", "foo"], env, m);
    var rec := map["level" := level, "message" := "foo", "caller" := env.callSite, "time" := "time"];
    assert Inject(m, env.callSite, "time") == rec;
    LevelMessageFormatted(env.callSite, level);
  }

  /** A complete call of the tests' logger that the level filter lets
      through writes the built-in formatter's line for the merged record with
      the call site and "time" injected. */
  lemma TestLogWrites(levelFilter: Filter, ambient: Record, kvs: seq<string>, env: Env, merged: Record)
    requires |kvs| % 2 == 0
    requires Overlay(ambient, Pairs(kvs)) == merged
    requires !levelFilter(merged)
    ensures Log(TestLogger(levelFilter), [], ambient, kvs, env, true)
         == Returned([JSONFormatter(Inject(merged, env.callSite, "time")) + "\n"])
  {
    TestLoggerStrategies(levelFilter, env);
  }

  // ---------------------------------------------------------------------
  // Case 5

  /** Case 5 (logger_test.go:79-94): metadata attached to the context
      appears on the line next to the call's own pairs. */
  lemma MetadataLineWritten(levelFilter: Filter, env: Env)
    requires !levelFilter(map["foo" := "bar", "key" := "val", "level" := "error", "message" := "foo"])
    ensures Log(TestLogger(levelFilter), [], map["foo" := "bar", "key" := "val"],
                ["level", "error", "message", "foo"], env, true)
         == Returned([MetadataLine(env.callSite) + "\n"])
  {
    var ambient := map["foo" := "bar", "key" := "val"];
    var kvs := ["level", "error", "message", "foo"];
    var merged := map["foo" := "bar", "key" := "val", "level" := "error", "message" := "foo"];
    var ps := [("level", "error"), ("message", "foo")];
    assert Pairs(kvs) == ps;
    assert ps[1..] == [("message", "foo")];
    assert Overlay(ambient, ps) == Overlay(ambient["level" := "error"], ps[1..]);
    assert ps[1..][1..] == [];
    assert Overlay(ambient, ps) == merged;
    TestLogWrites(levelFilter, ambient, kvs, env, merged);
    MetadataFormatted(env.callSite);
  }

  lemma MetadataFormatted(callSite: string)
    ensures JSONFormatter(map["foo" := "bar", "key" := "val", "level" := "error", "message" := "foo",
                              "caller" := callSite, "time" := "time"])
         == MetadataLine(callSite)
  {
    var rec := map["foo" := "bar", "key" := "val", "level" := "error", "message" := "foo",
                   "caller" := callSite, "time" := "time"];
    var es := [("caller", callSite), ("foo", "bar"), ("key", "val"), ("level", "error"),
               ("message", "foo"), ("time", "time")];
    assert StrictlyAscending(seq(|es|, i requires 0 <= i < |es| => es[i].0)) by {
      assert seq(|es|, i requires 0 <= i < |es| => es[i].0)
          == ["caller", "foo", "key", "level", "message", "time"];
    }
    forall k | k in rec
      ensures exists i :: 0 <= i < |es| && es[i].0 == k
    {
      if k == "caller" { assert es[0].0 == k; }
      else if k == "foo" { assert es[1].0 == k; }
      else if k == "key" { assert es[2].0 == k; }
      else if k == "level" { assert es[3].0 == k; }
      else if k == "message" { assert es[4].0 == k; }
      else { assert es[5].0 == k; }
    }
    FormatOfEntries(rec, es);
    MetadataText(callSite);
  }

  lemma MetadataText(callSite: string)
    ensures Open + Join(RenderAll([("caller", callSite), ("foo", "bar"), ("key", "val"), ("level", "error"),
                                   ("message", "foo"), ("time", "time")]), Separator) + Close
         == MetadataLine(callSite)
  {
    RenderSix(("caller", callSite), ("foo", "bar"), ("key", "val"), ("level", "error"),
              ("message", "foo"), ("time", "time"));
    JoinSix(RenderPair("caller", callSite), RenderPair("foo", "bar"), RenderPair("key", "val"),
            RenderPair("level", "error"), RenderPair("message", "foo"), RenderPair("time", "time"));
    CallerPair(callSite);
    FooPair("bar");
    KeyPair("val");
    LevelPair("error");
    MessagePair("foo");
    TimePair("time");
  }

  // ---------------------------------------------------------------------
  // Case 6

  /** Case 6 (logger_test.go:95-105): a `stack` value, the JSON text of a
      traced error, appears on the line unquoted. */
  lemma StackLineWritten(levelFilter: Filter, trace: string, env: Env)
    requires !levelFilter(map["level" := "warning", "message" := "foo", "stack" := trace])
    ensures Log(TestLogger(levelFilter), [], map[], ["level", "warning", "message", "foo", "stack", trace], env, true)
         == Returned([StackLine(env.callSite, trace) + "\n"])
  {
    var kvs := ["level", "warning", "message", "foo", "stack", trace];
    var merged := map["level" := "warning", "message" := "foo", "stack" := trace];
    var ps := [("level", "warning"), ("message", "foo"), ("stack", trace)];
    assert Pairs(kvs) == ps;
    assert ps[1..] == [("message", "foo"), ("stack", trace)];
    assert ps[1..][1..] == [("stack", trace)];
    assert ps[1..][1..][1..] == [];
    assert Overlay(map[], ps) == Overlay(map["level" := "warning"], ps[1..]);
    assert Overlay(map["level" := "warning"], ps[1..])
        == Overlay(map["level" := "warning", "message" := "foo"], ps[1..][1..]);
    assert Overlay(map["level" := "warning", "message" := "foo"], ps[1..][1..])
        == Overlay(merged, ps[1..][1..][1..]);
    assert Overlay(map[], ps) == merged;
    TestLogWrites(levelFilter, map[], kvs, env, merged);
    StackFormatted(env.callSite, trace);
  }

  lemma StackFormatted(callSite: string, trace: string)
    ensures JSONFormatter(map["level" := "warning", "message" := "foo", "stack" := trace,
                              "caller" := callSite, "time" := "time"])
         == StackLine(callSite, trace)
  {
    var rec := map["level" := "warning", "message" := "foo", "stack" := trace,
                   "caller" := callSite, "time" := "time"];
    var es := [("caller", callSite), ("level", "warning"), ("message", "foo"), ("stack", trace), ("time", "time")];
    assert StrictlyAscending(seq(|es|, i requires 0 <= i < |es| => es[i].0)) by {
      assert seq(|es|, i requires 0 <= i < |es| => es[i].0)
          == ["caller", "level", "message", "stack", "time"];
    }
    forall k | k in rec
      ensures exists i :: 0 <= i < |es| && es[i].0 == k
    {
      if k == "caller" { assert es[0].0 == k; }
      else if k == "level" { assert es[1].0 == k; }
      else if k == "message" { assert es[2].0 == k; }
      else if k == "stack" { assert es[3].0 == k; }
      else { assert es[4].0 == k; }
    }
    FormatOfEntries(rec, es);
    StackText(callSite, trace);
  }

  lemma StackText(callSite: string, trace: string)
    ensures Open + Join(RenderAll([("caller", callSite), ("level", "warning"), ("message", "foo"),
                                   ("stack", trace), ("time", "time")]), Separator) + Close
         == StackLine(callSite, trace)
  {
    RenderFive(("caller", callSite), ("level", "warning"), ("message", "foo"), ("stack", trace), ("time", "time"));
    JoinFive(RenderPair("caller", callSite), RenderPair("level", "warning"), RenderPair("message", "foo"),
             RenderPair("stack", trace), RenderPair("time", "time"));
    CallerPair(callSite);
    LevelPair("warning");
    MessagePair("foo");
    StackPair(trace);
    TimePair("time");
  }

  /** Case 4 (logger_test.go:70-78): an odd number of arguments writes only
      the notice. */
  lemma IncompletePairsNotice(levelFilter: Filter, env: Env)
    ensures Log(TestLogger(levelFilter), [], map[], ["level", "error", "message"], env, true)
         == Returned([IncompleteMessage + "\n"])
  {
    IncompleteCall(TestLogger(levelFilter), [], map[], ["level", "error", "message"], env, true);
  }
}
