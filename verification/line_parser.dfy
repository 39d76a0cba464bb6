/** A reader for the lines `JSONFormatter` writes. The formatter escapes
    nothing, so the line can be read back only when no key or value contains a
    double quote; for such records the reader recovers exactly the pairs that
    were written, in the order they were written. This is the formatter's
    inverse, used to state what the line says. */
module LineParser {
  import opened Wrappers
  import opened Reserved
  import opened Order
  import opened Formatter

  /** Position of the first double quote in `s`, or `|s|` if it has none. */
  function QuoteIndex(s: string): (i: nat)
    ensures i <= |s|
    ensures forall j :: 0 <= j < i ==> s[j] != '"'
    ensures i < |s| ==> s[i] == '"'
  {
    if |s| == 0 then 0
    else if s[0] == '"' then 0
    else 1 + QuoteIndex(s[1..])
  }

  /** Reads a quoted key and the colon after it from the front of `b`;
      gives the key and the text after the colon. */
  function ParseKey(b: string): (r: Option<(string, string)>)
    ensures r.Some? ==> |r.value.1| < |b|
  {
    if |b| == 0 || b[0] != '"' then None
    else
      var t := b[1..];
      var q := QuoteIndex(t);
      if q + 1 >= |t| || t[q + 1] != ':' then None
      else Some((t[..q], t[q + 2..]))
  }

  /** Reads a quoted value; gives the value and the text after it. */
  function ParseQuotedValue(w: string): (r: Option<(string, string)>)
    ensures r.Some? ==> |r.value.1| < |w|
  {
    if |w| == 0 || w[0] != '"' then None
    else
      var x := w[1..];
      var j := QuoteIndex(x);
      if j == |x| then None
      else Some((x[..j], x[j + 1..]))
  }

  /** Reads the verbatim `stack` value: it runs up to the separator in front
      of the next quoted key, or to the end of the text. */
  function ParseRawValue(w: string): (r: Option<(string, string)>)
    ensures r.Some? ==> |r.value.1| <= |w|
  {
    var j := QuoteIndex(w);
    if j == |w| then Some((w, ""))
    else if j >= 2 && w[j - 2..j] == Separator then Some((w[..j - 2], w[j - 2..]))
    else None
  }

  /** Reads one pair from the front of `b`: its key, its value and the text
      after it. */
  function ParseEntry(b: string): (r: Option<(string, string, string)>)
    ensures r.Some? ==> |r.value.2| < |b|
  {
    match ParseKey(b)
    case None => None
    case Some((key, w)) =>
      match (if key == KeyStack then ParseRawValue(w) else ParseQuotedValue(w))
      case None => None
      case Some((v, rest)) => Some((key, v, rest))
  }

  /** Reads one or more pairs separated by ", " that make up all of `b`. */
  function ParseEntries(b: string): Option<seq<(string, string)>>
    decreases |b|
  {
    match ParseEntry(b)
    case None => None
    case Some((k, v, rest)) =>
      if rest == "" then Some([(k, v)])
      else if |rest| >= 2 && rest[..2] == Separator then
        match ParseEntries(rest[2..])
        case None => None
        case Some(es) => Some([(k, v)] + es)
      else None
  }

  /** Reads a whole line: the frame, then zero or more pairs. */
  function ParseLine(s: string): Option<seq<(string, string)>> {
    if |s| < 4 || s[..2] != Open || s[|s| - 2..] != Close then None
    else
      var body := s[2..|s| - 2];
      if body == "" then Some([]) else ParseEntries(body)
  }

  /** The map a list of pairs describes; a later pair wins on a repeated key. */
  function ToMap(es: seq<(string, string)>): map<string, string>
  {
    if es == [] then map[]
    else ToMap(es[..|es| - 1])[es[|es| - 1].0 := es[|es| - 1].1]
  }

  /** Reads a line back into the record it was written from. */
  function Decode(s: string): Option<map<string, string>> {
    match ParseLine(s)
    case None => None
    case Some(es) => Some(ToMap(es))
  }

  predicate QuoteFree(m: map<string, string>) {
    forall k :: k in m ==> '"' !in k && '"' !in m[k]
  }

  lemma FirstQuote(a: string, rest: string)
    requires '"' !in a
    ensures QuoteIndex(a + "\"" + rest) == |a|
  {
    var s := a + "\"" + rest;
    assert forall j :: 0 <= j < |a| ==> s[j] == a[j];
    assert s[|a|] == '"';
  }

  lemma ParseKeyOf(k: string, w: string)
    requires '"' !in k
    ensures ParseKey("\"" + k + "\":" + w) == Some((k, w))
  {
    var b := "\"" + k + "\":" + w;
    var t := k + "\"" + (":" + w);
    assert b[1..] == t;
    FirstQuote(k, ":" + w);
    assert t[..|k|] == k;
    assert t[|k| + 2..] == w;
  }

  lemma ParseQuotedValueOf(v: string, tail: string)
    requires '"' !in v
    ensures ParseQuotedValue("\"" + v + "\"" + tail) == Some((v, tail))
  {
    var w := "\"" + v + "\"" + tail;
    var x := v + "\"" + tail;
    assert w[1..] == x;
    FirstQuote(v, tail);
    assert x[..|v|] == v;
    assert x[|v| + 1..] == tail;
  }

  lemma ParseRawValueOf(v: string, tail: string)
    requires '"' !in v
    requires tail == "" || (|tail| >= 3 && tail[..3] == ", \"")
    ensures ParseRawValue(v + tail) == Some((v, tail))
  {
    var w := v + tail;
    if tail == "" {
      assert w == v;
    } else {
      var rest := tail[3..];
      assert w == (v + ", ") + "\"" + rest;
      assert '"' !in v + ", ";
      FirstQuote(v + ", ", rest);
      var j := |v| + 2;
      assert w[j - 2..j] == Separator;
      assert w[..j - 2] == v;
      assert w[j - 2..] == tail;
    }
  }

  /** One rendered pair followed by the separator of the next pair, or by
      nothing, reads back as that pair. */
  lemma ParseRenderedPair(k: string, v: string, tail: string)
    requires '"' !in k && '"' !in v
    requires tail == "" || (|tail| >= 3 && tail[..3] == ", \"")
    ensures ParseEntry(RenderPair(k, v) + tail) == Some((k, v, tail))
  {
    if k == KeyStack {
      assert RenderPair(k, v) + tail == "\"" + k + "\":" + (v + tail);
      ParseKeyOf(k, v + tail);
      ParseRawValueOf(v, tail);
    } else {
      assert RenderPair(k, v) + tail == "\"" + k + "\":" + ("\"" + v + "\"" + tail);
      ParseKeyOf(k, "\"" + v + "\"" + tail);
      ParseQuotedValueOf(v, tail);
    }
  }

  /** Unfolding `ParseEntries` once when the first pair ends the text. */
  lemma ParseLast(b: string, k: string, v: string)
    requires ParseEntry(b) == Some((k, v, ""))
    ensures ParseEntries(b) == Some([(k, v)])
  {
  }

  /** Unfolding `ParseEntries` once when a separator follows the first pair. */
  lemma ParseNext(b: string, k: string, v: string, rest: string, es: seq<(string, string)>)
    requires ParseEntry(b) == Some((k, v, Separator + rest))
    requires ParseEntries(rest) == Some(es)
    ensures ParseEntries(b) == Some([(k, v)] + es)
  {
    assert (Separator + rest)[..2] == Separator;
    assert (Separator + rest)[2..] == rest;
  }

  /** A joined list of rendered pairs reads back as the same list. */
  lemma {:induction false} ParseJoined(es: seq<(string, string)>)
    requires |es| > 0
    requires forall i :: 0 <= i < |es| ==> '"' !in es[i].0 && '"' !in es[i].1
    ensures ParseEntries(Join(RenderAll(es), Separator)) == Some(es)
    decreases |es|
  {
    if |es| == 1 {
      assert [es[0]] == es;
      ParseSingle(es[0]);
    } else {
      var e, rest := es[0], es[1..];
      assert [e] + rest == es;
      assert '"' !in e.0 && '"' !in e.1;
      assert ParseEntries(Join(RenderAll(rest), Separator)) == Some(rest) by {
        ParseJoined(rest);
      }
      ParseJoinedStep(e, rest);
    }
  }

  /** A single rendered pair reads back as that pair. */
  lemma ParseSingle(e: (string, string))
    requires '"' !in e.0 && '"' !in e.1
    ensures ParseEntries(Join(RenderAll([e]), Separator)) == Some([e])
  {
    var p := RenderPair(e.0, e.1);
    assert RenderAll([e]) == [p];
    assert Join([p], Separator) == p;
    ParseRenderedPair(e.0, e.1, "");
    assert p + "" == p;
    ParseLast(p, e.0, e.1);
  }

  /** One step of `ParseJoined`: if the rendered tail reads back, so does the
      whole list. */
  lemma ParseJoinedStep(e: (string, string), rest: seq<(string, string)>)
    requires '"' !in e.0 && '"' !in e.1
    requires |rest| > 0
    requires ParseEntries(Join(RenderAll(rest), Separator)) == Some(rest)
    ensures ParseEntries(Join(RenderAll([e] + rest), Separator)) == Some([e] + rest)
  {
    var restParts := RenderAll(rest);
    assert restParts[0][0] == '"' by {
      assert restParts[0] == RenderPair(rest[0].0, rest[0].1);
    }
    assert RenderAll([e] + rest) == [RenderPair(e.0, e.1)] + restParts by {
      RenderAllCons(e, rest);
    }
    ParseCons(e.0, e.1, restParts, rest);
    assert [(e.0, e.1)] + rest == [e] + rest;
  }

  /** A quote-free pair rendered in front of a readable list of rendered
      pairs is read first. */
  lemma ParseCons(k: string, v: string, restParts: seq<string>, restEs: seq<(string, string)>)
    requires '"' !in k && '"' !in v
    requires |restParts| > 0 && |restParts[0]| > 0 && restParts[0][0] == '"'
    requires ParseEntries(Join(restParts, Separator)) == Some(restEs)
    ensures ParseEntries(Join([RenderPair(k, v)] + restParts, Separator)) == Some([(k, v)] + restEs)
  {
    var p := RenderPair(k, v);
    var restText := Join(restParts, Separator);
    var tail := Separator + restText;
    assert Join([p] + restParts, Separator) == p + tail by {
      JoinCons(p, restParts, Separator);
    }
    assert ParseEntry(p + tail) == Some((k, v, tail)) by {
      SeparatedTail(restParts, tail);
      ParseRenderedPair(k, v, tail);
    }
    ParseNext(p + tail, k, v, restText, restEs);
  }

  /** What follows a pair that is not the last starts with the separator and
      the next key's opening quote. */
  lemma SeparatedTail(restParts: seq<string>, tail: string)
    requires |restParts| > 0 && |restParts[0]| > 0 && restParts[0][0] == '"'
    requires tail == Separator + Join(restParts, Separator)
    ensures |tail| >= 3 && tail[..3] == ", \""
  {
    JoinHead(restParts, Separator);
  }

  /** Reading a framed body reads the body. */
  lemma ParseFramed(body: string)
    ensures ParseLine(Open + body + Close) == if body == "" then Some([]) else ParseEntries(body)
  {
    var s := Open + body + Close;
    assert s[..2] == Open;
    assert s[|s| - 2..] == Close;
    assert s[2..|s| - 2] == body;
  }

  /** A quote-free record's line reads back as its pairs in ascending key
      order. */
  lemma ParseFormatted(m: map<string, string>)
    requires QuoteFree(m)
    ensures ParseLine(JSONFormatter(m)) == Some(Entries(m))
  {
    EntriesDescribeMap(m);
    var es := Entries(m);
    var body := Join(RenderAll(es), Separator);
    ParseFramed(body);
    if |es| == 0 {
      assert body == "";
    } else {
      ParseJoined(es);
      JoinHead(RenderAll(es), Separator);
      assert body != "";
    }
  }

  /** The map described by pairs `ks[i] := m[ks[i]]` is `m` cut down to `ks`. */
  lemma {:induction false} ToMapEntries(m: map<string, string>, ks: seq<string>)
    requires forall k :: k in ks ==> k in m
    ensures forall k :: k in ToMap(EntriesAt(m, ks)) <==> k in ks
    ensures forall k :: k in ToMap(EntriesAt(m, ks)) ==> ToMap(EntriesAt(m, ks))[k] == m[k]
    decreases |ks|
  {
    var es := EntriesAt(m, ks);
    if ks != [] {
      var init := ks[..|ks| - 1];
      assert es[..|es| - 1] == EntriesAt(m, init);
      ToMapEntries(m, init);
      forall k
        ensures k in ks <==> k in init || k == ks[|ks| - 1]
      {
        assert ks == init + [ks[|ks| - 1]];
      }
    }
  }

  /** Round trip: a quote-free record's line decodes to that very record. */
  lemma DecodeFormatted(m: map<string, string>)
    requires QuoteFree(m)
    ensures Decode(JSONFormatter(m)) == Some(m)
  {
    ParseFormatted(m);
    ToMapEntries(m, SortedKeys(m.Keys));
    assert ToMap(Entries(m)) == m;
  }

  /** With no escaping, quotes inside a value can make two different records
      produce the same line: a value of `x", "b":"y` under `a` looks like two
      pairs. */
  lemma UnescapedQuotesCollide()
    ensures var one := map["a" := "x\", \"b\":\"y"];
            var two := map["a" := "x", "b" := "y"];
            one != two && JSONFormatter(one) == JSONFormatter(two)
  {
    var one := map["a" := "x\", \"b\":\"y"];
    var two := map["a" := "x", "b" := "y"];
    assert one["a"] != two["a"];
    OneKeyLine("a", "x\", \"b\":\"y");
    TwoKeyLine("a", "x", "b", "y");
    CollidingPairs();
  }

  /** The one pair whose value holds `", "b":"` renders as the two pairs. */
  lemma CollidingPairs()
    ensures RenderPair("a", "x\", \"b\":\"y") == RenderPair("a", "x") + Separator + RenderPair("b", "y")
  {
    assert RenderPair("a", "x\", \"b\":\"y") == "\"a\":\"" + "x\", \"b\":\"y" + "\"";
    assert RenderPair("a", "x") == "\"a\":\"" + "x" + "\"";
    assert RenderPair("b", "y") == "\"b\":\"" + "y" + "\"";
  }
}
