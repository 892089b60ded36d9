/**
 * Line-oriented parsing of command output, as every scanner does it:
 * `stdout.lines()`, then one optional record per line, collected in order.
 */
module Parsing {
  import opened Wrappers
  import opened Text

  /** A line with the carriage return of a CRLF ending removed. */
  function StripCr(l: string): string
  {
    if |l| > 0 && l[|l| - 1] == '\r' then l[..|l| - 1] else l
  }

  /**
   * `str::lines`: the pieces between newlines, without a final empty piece;
   * a piece that ended in a newline also loses one trailing carriage return.
   */
  function Lines(s: string): seq<string>
  {
    var pieces := Split(s, "\n");
    var last := pieces[|pieces| - 1];
    var ended := pieces[..|pieces| - 1];
    Stripped(ended) + (if last == "" then [] else [last])
  }

  function Stripped(ls: seq<string>): (r: seq<string>)
    ensures |r| == |ls|
    ensures forall i :: 0 <= i < |ls| ==> r[i] == StripCr(ls[i])
  {
    if ls == [] then [] else [StripCr(ls[0])] + Stripped(ls[1..])
  }

  /** Lines without newlines or a trailing carriage return, each ended by a newline, come back as written. */
  lemma LinesOfText(ls: seq<string>)
    requires forall k :: 0 <= k < |ls| ==> !Contains(ls[k], "\n") && StripCr(ls[k]) == ls[k]
    ensures Lines(Join(ls + [""], "\n")) == ls
  {
    NoNewlineAppended(ls);
    SplitJoin(ls + [""], "\n");
    LinesOfPieces(Join(ls + [""], "\n"), ls);
    StrippedClean(ls);
  }

  lemma NoNewlineAppended(ls: seq<string>)
    requires forall k :: 0 <= k < |ls| ==> !Contains(ls[k], "\n")
    ensures forall k :: 0 <= k < |ls + [""]| ==> !Contains((ls + [""])[k], "\n")
  {
    EmptyFree();
  }

  lemma LinesOfPieces(s: string, ls: seq<string>)
    requires Split(s, "\n") == ls + [""]
    ensures Lines(s) == Stripped(ls)
  {
    var pieces := Split(s, "\n");
    assert pieces[..|pieces| - 1] == ls;
  }

  lemma EmptyFree()
    ensures !Contains("", "\n")
  {
  }

  lemma StrippedClean(ls: seq<string>)
    requires forall k :: 0 <= k < |ls| ==> StripCr(ls[k]) == ls[k]
    ensures Stripped(ls) == ls
  {
  }

  /** `lines().skip(1)`, or skipping index 0 of `enumerate()`: the header line is not a record. */
  function AfterHeader(lines: seq<string>): (r: seq<string>)
    ensures |lines| > 0 ==> |r| == |lines| - 1 && forall k :: 0 <= k < |r| ==> r[k] == lines[k + 1]
    ensures lines == [] ==> r == []
  {
    if lines == [] then [] else lines[1..]
  }

  /** The records of the lines that parse, in line order. */
  function Collect<T>(lines: seq<string>, parse: string -> Option<T>): (r: seq<T>)
    ensures |r| <= |lines|
  {
    if lines == [] then []
    else
      Collect(lines[..|lines| - 1], parse) + Parsed(parse(lines[|lines| - 1]))
  }

  function Parsed<T>(o: Option<T>): seq<T>
  {
    if o.Some? then [o.value] else []
  }

  /** One more line adds its record, if it has one. */
  lemma CollectStep<T>(lines: seq<string>, i: nat, parse: string -> Option<T>)
    requires i < |lines|
    ensures Collect(lines[..i + 1], parse) == Collect(lines[..i], parse) + Parsed(parse(lines[i]))
  {
    assert lines[..i + 1][..i] == lines[..i];
  }

  /** When every line parses, one record per line. */
  lemma {:induction false} CollectAll<T>(lines: seq<string>, parse: string -> Option<T>)
    requires forall i :: 0 <= i < |lines| ==> parse(lines[i]).Some?
    ensures |Collect(lines, parse)| == |lines|
    ensures forall i :: 0 <= i < |lines| ==> Collect(lines, parse)[i] == parse(lines[i]).value
  {
    if lines != [] {
      var init := lines[..|lines| - 1];
      CollectAll(init, parse);
    }
  }

  /** A property every parsed record has holds of every collected record. */
  lemma {:induction false} CollectKeeps<T>(lines: seq<string>, parse: string -> Option<T>, P: T -> bool)
    requires forall l :: parse(l).Some? ==> P(parse(l).value)
    ensures forall i :: 0 <= i < |Collect(lines, parse)| ==> P(Collect(lines, parse)[i])
  {
    if lines != [] {
      CollectKeeps(lines[..|lines| - 1], parse, P);
    }
  }

  /** The usual loop: parse each line and push the record it yields, if any. */
  method AppendParsed<T>(acc: seq<T>, lines: seq<string>, parse: string -> Option<T>) returns (acc': seq<T>)
    ensures acc' == acc + Collect(lines, parse)
  {
    var found: seq<T> := [];
    for i := 0 to |lines|
      invariant found == Collect(lines[..i], parse)
    {
      CollectStep(lines, i, parse);
      var r := parse(lines[i]);
      if r.Some? {
        found := found + [r.value];
      }
    }
    assert lines[..|lines|] == lines;
    acc' := acc + found;
  }
}
