/**
 * `calculateDiff`: normalises CRLF line endings, lets the line diff
 * (`diffLines` of the `diff` package, a parameter here) split the two texts
 * into changes, and numbers the resulting lines: removed and unchanged
 * lines count on the old side, added and unchanged lines on the new side.
 */
module Diff {
  import opened Wrappers
  import Text

  /** One change of `diffLines`: a run of text, added, removed or common to both. */
  datatype Change = Change(value: string, added: bool, removed: bool)

  datatype LineKind = Added | Removed | Unchanged

  /** One output line with the line numbers its side(s) give it. */
  datatype DiffLine = DiffLine(content: string, kind: LineKind, oldLineNumber: Option<nat>, newLineNumber: Option<nat>)

  /** A line before numbering. */
  datatype Entry = Entry(content: string, kind: LineKind)

  // ---------------------------------------------------------------------
  // Line-ending normalisation
  // ---------------------------------------------------------------------

  /** `s.replace(/\r\n/g, '\n')`: one left-to-right pass over non-overlapping matches. */
  function ReplaceCrlf(s: string): (r: string)
    ensures |r| <= |s|
    decreases |s|
  {
    if |s| < 2 then s
    else if s[0] == '\r' && s[1] == '\n' then "\n" + ReplaceCrlf(s[2..])
    else [s[0]] + ReplaceCrlf(s[1..])
  }

  /** Text without carriage returns passes unchanged in front of whatever follows. */
  lemma {:induction false} ReplaceAfterPlain(a: string, b: string)
    requires '\r' !in a
    ensures ReplaceCrlf(a + b) == a + ReplaceCrlf(b)
    decreases |a|
  {
    if a == [] {
      assert a + b == b;
    } else {
      var s := a + b;
      assert s[0] == a[0] && a[0] in a;
      if |s| < 2 {
        assert |b| == 0 && s == a;
      } else {
        assert s[1..] == a[1..] + b;
        assert '\r' !in a[1..] by {
          forall k | 0 <= k < |a[1..]| ensures a[1..][k] != '\r' {
            assert a[1..][k] == a[k + 1];
          }
        }
        ReplaceAfterPlain(a[1..], b);
        calc {
          ReplaceCrlf(s);
          [s[0]] + ReplaceCrlf(s[1..]);
          [a[0]] + (a[1..] + ReplaceCrlf(b));
          { assert a == [a[0]] + a[1..]; }
          a + ReplaceCrlf(b);
        }
      }
    }
  }

  /** Lines joined with CRLF normalise to the same lines joined with LF. */
  lemma {:induction false} CrlfBecomesLf(lines: seq<string>)
    requires forall i :: 0 <= i < |lines| ==> '\r' !in lines[i]
    ensures ReplaceCrlf(Text.Join(lines, "\r\n")) == Text.Join(lines, "\n")
    decreases |lines|
  {
    if |lines| == 1 {
      ReplaceAfterPlain(lines[0], "");
      assert lines[0] + "" == lines[0];
    } else if |lines| > 1 {
      var rest := Text.Join(lines[1..], "\r\n");
      assert Text.Join(lines, "\r\n") == lines[0] + ("\r\n" + rest);
      ReplaceAfterPlain(lines[0], "\r\n" + rest);
      var t := "\r\n" + rest;
      assert t[2..] == rest;
      CrlfBecomesLf(lines[1..]);
      assert Text.Join(lines, "\n") == lines[0] + "\n" + Text.Join(lines[1..], "\n");
    }
  }

  /** The pass is single: a carriage return before a CRLF stays, so CRLF can remain in the output. */
  lemma LoneCarriageReturnKept()
    ensures ReplaceCrlf("\r\r\n") == "\r\n"
  {
    assert "\r\r\n"[1..] == "\r\n";
    assert "\r\n"[2..] == "";
  }

  // ---------------------------------------------------------------------
  // Lines of a change
  // ---------------------------------------------------------------------

  /** `Join(ps + [x])` adds the separator and `x` at the end. */
  lemma {:induction false} JoinSnoc(ps: seq<string>, x: string, sep: string)
    requires |ps| >= 1
    ensures Text.Join(ps + [x], sep) == Text.Join(ps, sep) + sep + x
    decreases |ps|
  {
    var qs := ps + [x];
    if |ps| == 1 {
      assert qs[1..] == [x];
    } else {
      assert qs[1..] == ps[1..] + [x];
      JoinSnoc(ps[1..], x, sep);
    }
  }

  /**
   * `value.split('\n')` without the empty piece a final newline leaves,
   * unless that piece is the only one. The kept lines joined with `\n` give
   * back the value without its final newline.
   */
  function EffectiveLines(value: string): (lines: seq<string>)
    ensures |lines| >= 1
    ensures forall i :: 0 <= i < |lines| ==> '\n' !in lines[i]
    ensures Text.Join(lines, "\n") ==
      if |value| > 0 && value[|value| - 1] == '\n' then value[..|value| - 1] else value
  {
    var parts := Text.Split(value, '\n');
    if |parts| > 1 && parts[|parts| - 1] == "" then
      var kept := parts[..|parts| - 1];
      assert parts == kept + [""];
      JoinSnoc(kept, "", "\n");
      assert value == Text.Join(kept, "\n") + "\n";
      assert value[..|value| - 1] == Text.Join(kept, "\n");
      kept
    else
      assert |value| > 0 && value[|value| - 1] == '\n' ==> false by {
        if |value| > 0 && value[|value| - 1] == '\n' {
          LastPieceEmpty(value, parts);
        }
      }
      parts
  }

  /** A value ending in a newline splits into more than one piece, the last of them empty. */
  lemma {:induction false} LastPieceEmpty(value: string, parts: seq<string>)
    requires |value| > 0 && value[|value| - 1] == '\n'
    requires parts == Text.Split(value, '\n')
    ensures |parts| > 1 && parts[|parts| - 1] == ""
    decreases |value|
  {
    var k, rest := SplitFirst(value, '\n');
    var tail := value[k + 1..];
    if |tail| > 0 {
      assert tail[|tail| - 1] == value[|value| - 1];
      LastPieceEmpty(tail, rest);
    } else {
      SplitEmpty('\n');
    }
  }

  /** Splitting at the first separator: the piece before it, then the split of the rest. */
  lemma SplitFirst(value: string, sep: char) returns (k: nat, rest: seq<string>)
    requires |value| > 0 && value[|value| - 1] == sep
    ensures k < |value| && rest == Text.Split(value[k + 1..], sep)
    ensures Text.Split(value, sep) == [value[..k]] + rest
  {
    assert value[|value| - 1] in value;
    k := Text.IndexOf(value, sep);
    rest := Text.Split(value[k + 1..], sep);
  }

  lemma SplitEmpty(sep: char)
    ensures Text.Split("", sep) == [""]
  {
  }

  function KindOf(c: Change): LineKind
  {
    if c.added then Added else if c.removed then Removed else Unchanged
  }

  function Tag(lines: seq<string>, kind: LineKind): (es: seq<Entry>)
    ensures |es| == |lines|
    ensures forall i :: 0 <= i < |lines| ==> es[i] == Entry(lines[i], kind)
  {
    seq(|lines|, i requires 0 <= i < |lines| => Entry(lines[i], kind))
  }

  /** The lines of the changes in order, each with its change's kind. */
  function Entries(cs: seq<Change>): seq<Entry>
  {
    if cs == [] then [] else Tag(EffectiveLines(cs[0].value), KindOf(cs[0])) + Entries(cs[1..])
  }

  /** No output line holds a newline. */
  lemma {:induction false} EntriesSingleLine(cs: seq<Change>)
    ensures forall i :: 0 <= i < |Entries(cs)| ==> '\n' !in Entries(cs)[i].content
    decreases |cs|
  {
    if cs != [] {
      EntriesSingleLine(cs[1..]);
      var head := Tag(EffectiveLines(cs[0].value), KindOf(cs[0]));
      forall i | 0 <= i < |Entries(cs)| ensures '\n' !in Entries(cs)[i].content {
        if i >= |head| {
          assert Entries(cs)[i] == Entries(cs[1..])[i - |head|];
        }
      }
    }
  }

  /** Identical texts: a single unchanged change gives its lines, all unchanged. */
  lemma SingleUnchangedChange(value: string)
    ensures Entries([Change(value, false, false)]) == Tag(EffectiveLines(value), Unchanged)
  {
    var cs := [Change(value, false, false)];
    assert cs[1..] == [];
  }

  // ---------------------------------------------------------------------
  // Numbering
  // ---------------------------------------------------------------------

  predicate OldSide(k: LineKind) { k != Added }
  predicate NewSide(k: LineKind) { k != Removed }

  function OldStep(e: Entry): nat { if OldSide(e.kind) then 1 else 0 }
  function NewStep(e: Entry): nat { if NewSide(e.kind) then 1 else 0 }

  /** Lines counted on the old side. */
  function OldCount(es: seq<Entry>): nat
  {
    if es == [] then 0 else OldStep(es[0]) + OldCount(es[1..])
  }

  /** Lines counted on the new side. */
  function NewCount(es: seq<Entry>): nat
  {
    if es == [] then 0 else NewStep(es[0]) + NewCount(es[1..])
  }

  /** An entry numbered with the current counters, each side only where it counts. */
  function Number(e: Entry, oldNumber: nat, newNumber: nat): DiffLine
  {
    DiffLine(e.content, e.kind,
             if OldSide(e.kind) then Some(oldNumber) else None,
             if NewSide(e.kind) then Some(newNumber) else None)
  }

  /** The entries numbered in order from the given counters. */
  function Numbered(es: seq<Entry>, oldNumber: nat, newNumber: nat): (ls: seq<DiffLine>)
    ensures |ls| == |es|
  {
    if es == [] then []
    else [Number(es[0], oldNumber, newNumber)] + Numbered(es[1..], oldNumber + OldStep(es[0]), newNumber + NewStep(es[0]))
  }

  /** Line `i` carries its entry's content and kind, numbered past the earlier lines of each side it counts on. */
  lemma {:induction false} NumberedAt(es: seq<Entry>, oldNumber: nat, newNumber: nat, i: nat)
    requires i < |es|
    ensures Numbered(es, oldNumber, newNumber)[i] ==
      Number(es[i], oldNumber + OldCount(es[..i]), newNumber + NewCount(es[..i]))
    decreases i
  {
    if i > 0 {
      NumberedAt(es[1..], oldNumber + OldStep(es[0]), newNumber + NewStep(es[0]), i - 1);
      assert es[..i][1..] == es[1..][..i - 1];
    } else {
      assert es[..0] == [];
    }
  }

  /** Unchanged lines carry both numbers, added lines only the new one, removed lines only the old one. */
  lemma {:induction false} NumberedShape(es: seq<Entry>, i: nat)
    requires i < |es|
    ensures var l := Numbered(es, 1, 1)[i];
      && l.content == es[i].content && l.kind == es[i].kind
      && (l.oldLineNumber.Some? <==> es[i].kind != Added)
      && (l.newLineNumber.Some? <==> es[i].kind != Removed)
  {
    NumberedAt(es, 1, 1, i);
  }

  /** The old line numbers of a result, in output order. */
  function OldNumbers(ls: seq<DiffLine>): seq<nat>
  {
    if ls == [] then []
    else (if ls[0].oldLineNumber.Some? then [ls[0].oldLineNumber.value] else []) + OldNumbers(ls[1..])
  }

  /** The new line numbers of a result, in output order. */
  function NewNumbers(ls: seq<DiffLine>): seq<nat>
  {
    if ls == [] then []
    else (if ls[0].newLineNumber.Some? then [ls[0].newLineNumber.value] else []) + NewNumbers(ls[1..])
  }

  /** `[from, from + 1, ..., from + count - 1]`. */
  function Run(from: nat, count: nat): (r: seq<nat>)
    ensures |r| == count && forall i :: 0 <= i < count ==> r[i] == from + i
    decreases count
  {
    if count == 0 then [] else [from] + Run(from + 1, count - 1)
  }

  /** On each side the numbers run on from the counter without gaps, one per line counted there. */
  lemma {:induction false} NumbersConsecutive(es: seq<Entry>, oldNumber: nat, newNumber: nat)
    ensures OldNumbers(Numbered(es, oldNumber, newNumber)) == Run(oldNumber, OldCount(es))
    ensures NewNumbers(Numbered(es, oldNumber, newNumber)) == Run(newNumber, NewCount(es))
    decreases |es|
  {
    if es != [] {
      var ls := Numbered(es, oldNumber, newNumber);
      NumbersConsecutive(es[1..], oldNumber + OldStep(es[0]), newNumber + NewStep(es[0]));
      assert ls[1..] == Numbered(es[1..], oldNumber + OldStep(es[0]), newNumber + NewStep(es[0]));
    }
  }

  /** With only unchanged lines, both counters advance once per line. */
  lemma {:induction false} CountsAllUnchanged(es: seq<Entry>)
    requires forall i :: 0 <= i < |es| ==> es[i].kind == Unchanged
    ensures OldCount(es) == |es| && NewCount(es) == |es|
    decreases |es|
  {
    if es != [] {
      CountsAllUnchanged(es[1..]);
    }
  }

  /** With only unchanged lines, line `i` is numbered `i + 1` on both sides. */
  lemma {:induction false} AllUnchangedNumbering(es: seq<Entry>, i: nat)
    requires forall j :: 0 <= j < |es| ==> es[j].kind == Unchanged
    requires i < |es|
    ensures Numbered(es, 1, 1)[i] == DiffLine(es[i].content, Unchanged, Some(i + 1), Some(i + 1))
  {
    NumberedAt(es, 1, 1, i);
    CountsAllUnchanged(es[..i]);
  }

  /** Numbering the next line of a change: its own line first, then the rest from the advanced counters. */
  lemma NextLine(lines: seq<string>, j: nat, kind: LineKind, later: seq<Entry>, oldNumber: nat, newNumber: nat)
    requires j < |lines|
    ensures var e := Entry(lines[j], kind);
      Numbered(Tag(lines[j..], kind) + later, oldNumber, newNumber) ==
      [Number(e, oldNumber, newNumber)] + Numbered(Tag(lines[j + 1..], kind) + later, oldNumber + OldStep(e), newNumber + NewStep(e))
  {
    var todo := Tag(lines[j..], kind) + later;
    assert todo[0] == Entry(lines[j], kind);
    assert todo[1..] == Tag(lines[j + 1..], kind) + later;
  }

  /** Appending the next line's numbering and advancing the counters keeps the loop's account of the whole result. */
  lemma NextLineKept(before: seq<DiffLine>, all: seq<DiffLine>, lines: seq<string>, j: nat, kind: LineKind, later: seq<Entry>,
                     oldNumber: nat, newNumber: nat, after: seq<DiffLine>, oldNext: nat, newNext: nat)
    requires j < |lines|
    requires before + Numbered(Tag(lines[j..], kind) + later, oldNumber, newNumber) == all
    requires after == before + [Number(Entry(lines[j], kind), oldNumber, newNumber)]
    requires oldNext == oldNumber + OldStep(Entry(lines[j], kind)) && newNext == newNumber + NewStep(Entry(lines[j], kind))
    ensures after + Numbered(Tag(lines[j + 1..], kind) + later, oldNext, newNext) == all
  {
    NextLine(lines, j, kind, later, oldNumber, newNumber);
    var x := Number(Entry(lines[j], kind), oldNumber, newNumber);
    var rest := Numbered(Tag(lines[j + 1..], kind) + later, oldNext, newNext);
    Regroup(before, x, rest);
  }

  lemma Regroup<T>(a: seq<T>, x: T, b: seq<T>)
    ensures (a + [x]) + b == a + ([x] + b)
  {
  }

  /** When the diff finds the texts identical, line `i` of the result is line `i` of the text, numbered `i + 1` on both sides. */
  lemma IdenticalTextsNumbering(changes: seq<Change>, value: string, i: nat)
    requires changes == [Change(value, false, false)]
    requires i < |EffectiveLines(value)|
    ensures |Numbered(Entries(changes), 1, 1)| == |EffectiveLines(value)|
    ensures Numbered(Entries(changes), 1, 1)[i] == DiffLine(EffectiveLines(value)[i], Unchanged, Some(i + 1), Some(i + 1))
  {
    SingleUnchangedChange(value);
    var es := Tag(EffectiveLines(value), Unchanged);
    AllUnchangedNumbering(es, i);
  }

  // ---------------------------------------------------------------------
  // The procedure
  // ---------------------------------------------------------------------

  /**
   * `calculateDiff(oldStr, newStr)`: both texts normalised, diffed by
   * `diffLines`, and every line of every change numbered by the two
   * counters, which start at 1.
   */
  method CalculateDiff(oldStr: string, newStr: string, diffLines: (string, string) -> seq<Change>)
    returns (result: seq<DiffLine>)
    ensures result == Numbered(Entries(diffLines(ReplaceCrlf(oldStr), ReplaceCrlf(newStr))), 1, 1)
  {
    var changes := diffLines(ReplaceCrlf(oldStr), ReplaceCrlf(newStr));
    ghost var all := Numbered(Entries(changes), 1, 1);
    result := [];
    var oldLineCount := 1;
    var newLineCount := 1;
    for c := 0 to |changes|
      invariant result + Numbered(Entries(changes[c..]), oldLineCount, newLineCount) == all
    {
      var change := changes[c];
      var lines := EffectiveLines(change.value);
      ghost var later := Entries(changes[c + 1..]);
      assert changes[c..][1..] == changes[c + 1..];
      assert lines[0..] == lines;
      for j := 0 to |lines|
        invariant result + Numbered(Tag(lines[j..], KindOf(change)) + later, oldLineCount, newLineCount) == all
      {
        var line := lines[j];
        ghost var before, o0, n0 := result, oldLineCount, newLineCount;
        ghost var e := Entry(line, KindOf(change));
        if change.added {
          result := result + [DiffLine(line, Added, None, Some(newLineCount))];
          newLineCount := newLineCount + 1;
        } else if change.removed {
          result := result + [DiffLine(line, Removed, Some(oldLineCount), None)];
          oldLineCount := oldLineCount + 1;
        } else {
          result := result + [DiffLine(line, Unchanged, Some(oldLineCount), Some(newLineCount))];
          oldLineCount := oldLineCount + 1;
          newLineCount := newLineCount + 1;
        }
        assert result == before + [Number(e, o0, n0)];
        assert oldLineCount == o0 + OldStep(e) && newLineCount == n0 + NewStep(e);
        NextLineKept(before, all, lines, j, KindOf(change), later, o0, n0, result, oldLineCount, newLineCount);
      }
      assert Tag(lines[|lines|..], KindOf(change)) + later == later;
    }
    assert result + [] == result;
  }
}
