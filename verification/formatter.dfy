/** `JSONFormatter` (formatter.go): one log record rendered as a single line
    shaped like a JSON object. Keys come in ascending order; each key is
    quoted; each value is quoted except the one under `stack`, which is copied
    in verbatim; pairs are separated by ", "; the line is framed by "{ " and
    " }". Nothing is escaped. */
module Formatter {
  import opened Reserved
  import opened Order

  const Open: string := "{ "
  const Close: string := " }"
  const Separator: string := ", "

  function Quote(s: string): string {
    "\"" + s + "\""
  }

  /** The text one key-value pair contributes to the line. */
  function RenderPair(k: string, v: string): string {
    Quote(k) + ":" + (if k == KeyStack then v else Quote(v))
  }

  /** The parts with `sep` between each consecutive two and nowhere else. */
  function Join(parts: seq<string>, sep: string): string {
    if |parts| == 0 then ""
    else if |parts| == 1 then parts[0]
    else parts[0] + sep + Join(parts[1..], sep)
  }

  /** The pairs of `m` under the keys `ks`, in that order. */
  function EntriesAt(m: map<string, string>, ks: seq<string>): seq<(string, string)>
    requires forall k :: k in ks ==> k in m
  {
    seq(|ks|, i requires 0 <= i < |ks| => (ks[i], m[ks[i]]))
  }

  /** The record's pairs in the order they are emitted. */
  function Entries(m: map<string, string>): seq<(string, string)> {
    EntriesAt(m, SortedKeys(m.Keys))
  }

  function RenderAll(es: seq<(string, string)>): seq<string> {
    seq(|es|, i requires 0 <= i < |es| => RenderPair(es[i].0, es[i].1))
  }

  /** The formatter: the declarative reading of formatter.go, lines 11-55. */
  function JSONFormatter(m: map<string, string>): string {
    Open + Join(RenderAll(Entries(m)), Separator) + Close
  }

  /** The emitted pairs are the map's pairs, each key once, keys strictly
      ascending. */
  lemma EntriesDescribeMap(m: map<string, string>)
    ensures |Entries(m)| == |m|
    ensures forall i :: 0 <= i < |Entries(m)| ==>
              Entries(m)[i].0 in m && m[Entries(m)[i].0] == Entries(m)[i].1
    ensures forall i, j :: 0 <= i < j < |Entries(m)| ==> Less(Entries(m)[i].0, Entries(m)[j].0)
    ensures forall k :: k in m ==> exists i :: 0 <= i < |Entries(m)| && Entries(m)[i].0 == k
  {
    var ks := SortedKeys(m.Keys);
    var es := Entries(m);
    forall k | k in m
      ensures exists i :: 0 <= i < |es| && es[i].0 == k
    {
      var i :| 0 <= i < |ks| && ks[i] == k;
      assert es[i].0 == k;
    }
  }

  /** The first half of formatter.go's loop (lines 15-19): the keys in the
      map's iteration order, which the language leaves unspecified. */
  method CollectKeys(m: map<string, string>) returns (keys: seq<string>)
    ensures Distinct(keys)
    ensures forall k :: k in keys <==> k in m
  {
    keys := [];
    var unvisited := m.Keys;
    while unvisited != {}
      invariant forall k :: k in m <==> k in keys || k in unvisited
      invariant forall k :: k in keys ==> k !in unvisited
      invariant Distinct(keys)
      decreases unvisited
    {
      var k :| k in unvisited;
      keys := keys + [k];
      unvisited := unvisited - {k};
    }
  }

  /** The Go function, statement for statement: collect the keys, sort them,
      then append each pair and a separator after every pair but the last.
      Whatever order the iteration produces, the line is the one
      `JSONFormatter` describes. */
  method JSONFormatterLoop(m: map<string, string>) returns (s: string)
    ensures s == JSONFormatter(m)
  {
    var keys := CollectKeys(m);
    SortIgnoresIterationOrder(m.Keys, keys);
    keys := SortStrings(keys);
    s := RenderLine(m, keys);
  }

  /** The second half of formatter.go's loop (lines 26-52) over the sorted keys. */
  method RenderLine(m: map<string, string>, keys: seq<string>) returns (s: string)
    requires forall k :: k in keys ==> k in m
    ensures s == Open + Join(RenderAll(EntriesAt(m, keys)), Separator) + Close
  {
    ghost var parts := RenderAll(EntriesAt(m, keys));
    s := Open;
    var i := 0;
    while i < |keys|
      invariant 0 <= i <= |keys|
      invariant s + Join(parts[i..], Separator) == Open + Join(parts, Separator)
    {
      var k := keys[i];
      ghost var before := s;
      s := s + "\"";
      s := s + k;
      s := s + "\"";
      s := s + ":";
      if k != KeyStack {
        s := s + "\"";
      }
      s := s + m[k];
      if k != KeyStack {
        s := s + "\"";
      }
      assert s == before + parts[i] by {
        PairSteps(before, k, m[k]);
      }
      ghost var after := s;
      if i + 1 < |keys| {
        s := s + Separator;
      }
      assert s + Join(parts[i + 1..], Separator) == before + Join(parts[i..], Separator) by {
        JoinStep(parts, i, Separator);
        AppendStep(before, parts[i], Separator, Join(parts[i + 1..], Separator), i + 1 < |keys|);
      }
      i := i + 1;
    }
    s := s + Close;
  }

  /** The character-by-character appends of one loop iteration add exactly
      `RenderPair(k, v)`. */
  lemma PairSteps(before: string, k: string, v: string)
    ensures k != KeyStack ==>
      (((((before + "\"") + k) + "\"") + ":") + "\"" + v) + "\"" == before + RenderPair(k, v)
    ensures k == KeyStack ==>
      ((((before + "\"") + k) + "\"") + ":") + v == before + RenderPair(k, v)
  {
    if k != KeyStack {
      QuotedSteps(before, k, v);
    } else {
      RawSteps(before, k, v);
    }
  }

  lemma QuotedSteps(before: string, k: string, v: string)
    requires k != KeyStack
    ensures (((((before + "\"") + k) + "\"") + ":") + "\"" + v) + "\"" == before + RenderPair(k, v)
  {
    assert RenderPair(k, v) == "\"" + k + "\"" + ":" + ("\"" + v + "\"");
  }

  lemma RawSteps(before: string, k: string, v: string)
    requires k == KeyStack
    ensures ((((before + "\"") + k) + "\"") + ":") + v == before + RenderPair(k, v)
  {
    assert RenderPair(k, v) == "\"" + k + "\"" + ":" + v;
  }

  /** The text after one more pair, and after its separator when another
      pair follows, regrouped. */
  lemma AppendStep(before: string, part: string, sep: string, rest: string, more: bool)
    ensures (if more then before + part + sep else before + part) + (if more then rest else "")
         == before + (part + (if more then sep + rest else ""))
  {
  }

  /** Unfolding `Join` at position `i`. */
  lemma JoinStep(parts: seq<string>, i: nat, sep: string)
    requires i < |parts|
    ensures Join(parts[i..], sep) ==
            parts[i] + (if i + 1 < |parts| then sep + Join(parts[i + 1..], sep) else "")
  {
    if i + 1 < |parts| {
      assert parts[i..][1..] == parts[i + 1..];
    }
  }

  /** The sum of the lengths of the parts. */
  function TotalLength(parts: seq<string>): nat {
    if parts == [] then 0 else |parts[0]| + TotalLength(parts[1..])
  }

  /** `Join` adds exactly one separator between consecutive parts: n parts
      give n - 1 separators and none after the last. */
  lemma {:induction false} JoinLength(parts: seq<string>, sep: string)
    requires |parts| > 0
    ensures |Join(parts, sep)| == TotalLength(parts) + (|parts| - 1) * |sep|
  {
    if |parts| > 1 {
      JoinLength(parts[1..], sep);
    }
  }

  /** A joined sequence starts with its first part. */
  lemma JoinHead(parts: seq<string>, sep: string)
    requires |parts| > 0
    ensures parts[0] <= Join(parts, sep)
  {
  }

  /** Every part occurs in the joined text. */
  lemma {:induction false} JoinContains(parts: seq<string>, sep: string, i: nat)
    requires i < |parts|
    ensures exists a, b :: a + parts[i] + b == Join(parts, sep)
  {
    if i == 0 {
      var b := if |parts| == 1 then "" else sep + Join(parts[1..], sep);
      assert "" + parts[0] + b == Join(parts, sep);
    } else {
      JoinContains(parts[1..], sep, i - 1);
      var a, b :| a + parts[1..][i - 1] + b == Join(parts[1..], sep);
      assert (parts[0] + sep + a) + parts[i] + b == Join(parts, sep);
    }
  }

  /** The line is framed by "{ " and " }", and it is the bare frame "{  }"
      exactly when the map is empty. */
  lemma Framing(m: map<string, string>)
    ensures |JSONFormatter(m)| >= 4
    ensures JSONFormatter(m)[..2] == Open
    ensures JSONFormatter(m)[|JSONFormatter(m)| - 2..] == Close
    ensures JSONFormatter(m) == "{  }" <==> |m| == 0
  {
    var s := JSONFormatter(m);
    var body := Join(RenderAll(Entries(m)), Separator);
    assert s == Open + body + Close;
    assert s[..2] == Open;
    assert s[|s| - 2..] == Close;
    if |m| > 0 {
      EntriesDescribeMap(m);
      JoinHead(RenderAll(Entries(m)), Separator);
      assert |RenderAll(Entries(m))[0]| > 0;
      assert |s| > 4;
    } else {
      assert Entries(m) == [];
    }
  }

  /** Every pair of the map is in the line: `"k":"v"` with the value quoted,
      except under `stack`, whose value follows `"stack":` verbatim. */
  lemma EveryPairRendered(m: map<string, string>, k: string)
    requires k in m
    ensures k == KeyStack ==> exists a, b :: a + ("\"stack\":" + m[k]) + b == JSONFormatter(m)
    ensures k != KeyStack ==>
      exists a, b :: a + ("\"" + k + "\":\"" + m[k] + "\"") + b == JSONFormatter(m)
  {
    EntriesDescribeMap(m);
    var es := Entries(m);
    var i :| 0 <= i < |es| && es[i].0 == k;
    var parts := RenderAll(es);
    assert parts[i] == RenderPair(k, m[k]);
    PartInLine(m, i);
    RenderedPairText(k, m[k]);
  }

  /** The text of one pair, spelled out. */
  lemma RenderedPairText(k: string, v: string)
    ensures k == KeyStack ==> RenderPair(k, v) == "\"stack\":" + v
    ensures k != KeyStack ==> RenderPair(k, v) == "\"" + k + "\":\"" + v + "\""
  {
  }

  lemma PartInLine(m: map<string, string>, i: nat)
    requires i < |RenderAll(Entries(m))|
    ensures exists a, b :: a + RenderAll(Entries(m))[i] + b == JSONFormatter(m)
  {
    var parts := RenderAll(Entries(m));
    JoinContains(parts, Separator, i);
    InfixOfFramed(Join(parts, Separator), parts[i]);
  }

  lemma InfixOfFramed(body: string, p: string)
    requires exists a, b :: a + p + b == body
    ensures exists a, b :: a + p + b == Open + body + Close
  {
    var a, b :| a + p + b == body;
    assert (Open + a) + p + (b + Close) == Open + body + Close;
  }

  /** The length of a non-empty record's line: the frame, the pairs, and one
      two-character separator between each two consecutive pairs. */
  lemma LineLength(m: map<string, string>)
    requires |m| > 0
    ensures |JSONFormatter(m)| ==
            |Open| + TotalLength(RenderAll(Entries(m))) + (|m| - 1) * |Separator| + |Close|
  {
    EntriesDescribeMap(m);
    JoinLength(RenderAll(Entries(m)), Separator);
  }

  /** The line of a record whose keys, listed in ascending order, are `ks`. */
  lemma FormatOfAscending(m: map<string, string>, ks: seq<string>)
    requires StrictlyAscending(ks)
    requires forall k :: k in ks <==> k in m
    ensures JSONFormatter(m) == Open + Join(RenderAll(EntriesAt(m, ks)), Separator) + Close
  {
    SortedKeysUnique(m.Keys, ks);
  }

  /** The line of a one-pair record. */
  lemma OneKeyLine(k: string, v: string)
    ensures JSONFormatter(map[k := v]) == Open + RenderPair(k, v) + Close
  {
    var m := map[k := v];
    FormatOfAscending(m, [k]);
    assert RenderAll(EntriesAt(m, [k])) == [RenderPair(k, v)];
  }

  /** The line of a two-pair record. */
  lemma TwoKeyLine(k1: string, v1: string, k2: string, v2: string)
    requires Less(k1, k2)
    ensures JSONFormatter(map[k1 := v1, k2 := v2]) ==
            Open + (RenderPair(k1, v1) + Separator + RenderPair(k2, v2)) + Close
  {
    LessIrreflexive(k1);
    var m := map[k1 := v1, k2 := v2];
    FormatOfAscending(m, [k1, k2]);
    var parts := RenderAll(EntriesAt(m, [k1, k2]));
    assert parts == [RenderPair(k1, v1), RenderPair(k2, v2)];
    assert parts[1..] == [RenderPair(k2, v2)];
  }

  /** The line of a record whose pairs, in ascending key order, are `es`. */
  lemma FormatOfEntries(m: map<string, string>, es: seq<(string, string)>)
    requires StrictlyAscending(seq(|es|, i requires 0 <= i < |es| => es[i].0))
    requires forall k :: k in m <==> exists i :: 0 <= i < |es| && es[i].0 == k
    requires forall i :: 0 <= i < |es| ==> es[i].0 in m && m[es[i].0] == es[i].1
    ensures JSONFormatter(m) == Open + Join(RenderAll(es), Separator) + Close
  {
    var ks := seq(|es|, i requires 0 <= i < |es| => es[i].0);
    forall k
      ensures k in ks <==> k in m
    {
      if k in m {
        var i :| 0 <= i < |es| && es[i].0 == k;
        assert ks[i] == k;
      }
    }
    FormatOfAscending(m, ks);
    assert EntriesAt(m, ks) == es;
  }

  /** `Join` of a part in front of more parts. */
  lemma JoinCons(p: string, ps: seq<string>, sep: string)
    requires ps != []
    ensures Join([p] + ps, sep) == p + sep + Join(ps, sep)
  {
    assert ([p] + ps)[1..] == ps;
  }

  lemma RenderAllCons(e: (string, string), es: seq<(string, string)>)
    ensures RenderAll([e] + es) == [RenderPair(e.0, e.1)] + RenderAll(es)
  {
  }
}
