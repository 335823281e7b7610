/**
 * The device list of `hdf_code` (dpmData.py, lines 142-152): one name per line
 * of the device file, or the catalog's list when no file is named, then cut to
 * the device limit when the limit is positive.
 */
module Devices {
  import opened Wrappers
  import opened Text

  /** Length of the line ending or character at the front of non-empty text:
      2 for a `"\r\n"`, 1 otherwise. */
  function HeadLength(raw: string): (k: nat)
    requires raw != []
    ensures 1 <= k <= |raw|
    ensures k == 2 <==> raw[0] == '\r' && |raw| > 1 && raw[1] == '\n'
  {
    if raw[0] == '\r' && |raw| > 1 && raw[1] == '\n' then 2 else 1
  }

  /** What the front of non-empty text reads as: a newline for a `"\r"` (alone or
      in a `"\r\n"`), the character itself otherwise. */
  function HeadText(raw: string): string
    requires raw != []
  {
    if raw[0] == '\r' then "\n" else [raw[0]]
  }

  /** The newline translation of a file opened in text mode: `"\r\n"` and a lone
      `"\r"` both read as `"\n"`. */
  function Translate(raw: string): string
  {
    if raw == [] then [] else HeadText(raw) + Translate(raw[HeadLength(raw)..])
  }

  /** No carriage return is left after translation. */
  lemma {:induction false} TranslateRemovesCr(raw: string)
    ensures forall i :: 0 <= i < |Translate(raw)| ==> Translate(raw)[i] != '\r'
  {
    if raw != [] {
      TranslateRemovesCr(raw[HeadLength(raw)..]);
    }
  }

  /** Text without a carriage return reads unchanged. */
  lemma {:induction false} TranslateKeepsPlainText(raw: string)
    requires forall i :: 0 <= i < |raw| ==> raw[i] != '\r'
    ensures Translate(raw) == raw
  {
    if raw != [] {
      assert raw[0] != '\r';
      TranslateKeepsPlainText(raw[1..]);
      assert [raw[0]] + raw[1..] == raw;
    }
  }

  /** Text splits into pieces that translate on their own, unless the cut falls
      between the two characters of a `"\r\n"`. */
  lemma {:induction false} TranslateSplit(a: string, c: string)
    requires !(a != [] && a[|a| - 1] == '\r' && c != [] && c[0] == '\n')
    ensures Translate(a + c) == Translate(a) + Translate(c)
    decreases |a|
  {
    if a == [] {
      assert a + c == c;
    } else {
      var rest := a[HeadLength(a)..];
      assert !(rest != [] && rest[|rest| - 1] == '\r' && c != [] && c[0] == '\n') by {
        assert rest != [] ==> rest[|rest| - 1] == a[|a| - 1];
      }
      TranslateSplit(rest, c);
      TranslateSplitStep(a, c);
    }
  }

  /** One step of `TranslateSplit`: from the split of what follows the front of `a`
      to the split of `a` itself. */
  lemma TranslateSplitStep(a: string, c: string)
    requires a != [] && !(a[|a| - 1] == '\r' && c != [] && c[0] == '\n')
    requires Translate(a[HeadLength(a)..] + c) == Translate(a[HeadLength(a)..]) + Translate(c)
    ensures Translate(a + c) == Translate(a) + Translate(c)
  {
    var rest := a[HeadLength(a)..];
    HeadOfConcat(a, c);
    TranslateUnfold(a + c);
    TranslateUnfold(a);
    Regroup(HeadText(a), Translate(rest), Translate(c));
  }

  /** One step of `Translate`, as an equation. */
  lemma TranslateUnfold(s: string)
    requires s != []
    ensures Translate(s) == HeadText(s) + Translate(s[HeadLength(s)..])
  {
  }

  lemma Regroup(h: string, y: string, z: string)
    ensures h + (y + z) == (h + y) + z
  {
  }

  /** The front of `a + c` is the front of `a`, given the split's condition. */
  lemma HeadOfConcat(a: string, c: string)
    requires a != [] && !(a[|a| - 1] == '\r' && c != [] && c[0] == '\n')
    ensures HeadText(a + c) == HeadText(a) && HeadLength(a + c) == HeadLength(a)
    ensures (a + c)[HeadLength(a)..] == a[HeadLength(a)..] + c
  {
    var ac := a + c;
    assert ac[0] == a[0];
    if |a| > 1 {
      assert ac[1] == a[1];
    } else if |ac| > 1 {
      assert ac[1] == c[0];
    }
  }

  /** A `"\r\n"` reads as one newline. */
  lemma TranslateCrLf(a: string, b: string)
    ensures Translate(a + "\r\n" + b) == Translate(a) + "\n" + Translate(b)
  {
    var tail := "\r\n" + b;
    assert a + "\r\n" + b == a + tail;
    TranslateSplit(a, tail);
    assert tail[0] == '\r' && tail[1] == '\n' && tail[2..] == b;
    assert HeadText(tail) == "\n" && HeadLength(tail) == 2;
    TranslateUnfold(tail);
    Regroup(Translate(a), "\n", Translate(b));
  }

  /** A `"\r"` not followed by `"\n"` reads as one newline. */
  lemma TranslateLoneCr(a: string, b: string)
    requires b == [] || b[0] != '\n'
    ensures Translate(a + "\r" + b) == Translate(a) + "\n" + Translate(b)
  {
    var tail := "\r" + b;
    assert a + "\r" + b == a + tail;
    TranslateSplit(a, tail);
    assert tail[0] == '\r' && tail[1..] == b;
    assert HeadText(tail) == "\n" && HeadLength(tail) == 1;
    TranslateUnfold(tail);
    Regroup(Translate(a), "\n", Translate(b));
  }

  /** Concatenation of a sequence of strings. */
  function Flatten(lines: seq<string>): string
  {
    if lines == [] then [] else Flatten(lines[..|lines| - 1]) + lines[|lines| - 1]
  }

  /** Number of newline characters in a string. */
  function Newlines(s: string): nat
  {
    if s == [] then 0 else Newlines(s[..|s| - 1]) + (if s[|s| - 1] == '\n' then 1 else 0)
  }

  /** Length of the first line of non-empty text, its newline included. */
  function FirstLineLength(t: string): (k: nat)
    requires t != []
    ensures 0 < k <= |t|
    ensures forall j :: 0 <= j < k - 1 ==> t[j] != '\n'
    ensures t[k - 1] == '\n' || k == |t|
  {
    if t[0] == '\n' || |t| == 1 then 1 else 1 + FirstLineLength(t[1..])
  }

  /** A line as iterating a text file yields it: not empty, with no newline
      except possibly as its last character. */
  predicate IsLine(l: string)
  {
    l != [] && forall j :: 0 <= j < |l| - 1 ==> l[j] != '\n'
  }

  /** The lines that iterating over a text file yields, newlines kept. */
  function Lines(t: string): (ls: seq<string>)
    ensures Flatten(ls) == t
    ensures forall i :: 0 <= i < |ls| ==> IsLine(ls[i])
    ensures forall i :: 0 <= i < |ls| - 1 ==> ls[i] != [] && ls[i][|ls[i]| - 1] == '\n'
    decreases |t|
  {
    if t == [] then []
    else
      var k := FirstLineLength(t);
      var first, rest := t[..k], Lines(t[k..]);
      var ls := [first] + rest;
      assert IsLine(first);
      assert rest != [] ==> k < |t| && first[k - 1] == '\n';
      assert forall i :: 0 < i < |ls| ==> ls[i] == rest[i - 1];
      FlattenCons(first, rest);
      assert first + t[k..] == t;
      ls
  }

  lemma {:induction false} FlattenCons(l: string, ls: seq<string>)
    ensures Flatten([l] + ls) == l + Flatten(ls)
    decreases |ls|
  {
    if ls != [] {
      var front := ls[..|ls| - 1];
      assert ([l] + ls)[..|ls|] == [l] + front;
      FlattenCons(l, front);
    } else {
      assert [l] + ls == [l];
      assert Flatten([l]) == Flatten([]) + l;
    }
  }

  /** The comprehension `[line.rstrip() for line in f if line]`. */
  function NamesFromLines(lines: seq<string>): seq<string>
  {
    if lines == [] then []
    else if lines[0] == "" then NamesFromLines(lines[1..])
    else [RStrip(StrIsSpace, lines[0])] + NamesFromLines(lines[1..])
  }

  /** On the lines of a file the `if line` filter drops nothing: one name per
      line, in order, each the line with its trailing whitespace removed. */
  lemma {:induction false} NamesFromFileLines(lines: seq<string>)
    requires forall i :: 0 <= i < |lines| ==> IsLine(lines[i])
    ensures |NamesFromLines(lines)| == |lines|
    ensures forall i :: 0 <= i < |lines| ==> NamesFromLines(lines)[i] == RStrip(StrIsSpace, lines[i])
  {
    if lines != [] {
      assert IsLine(lines[0]);
      NamesFromFileLines(lines[1..]);
    }
  }

  /** The device names read from a file's raw text. */
  function NamesFromFile(raw: string): seq<string>
  {
    NamesFromLines(Lines(Translate(raw)))
  }

  /** One name per line of the file, in order: each is its line (after newline
      translation) right-stripped, so a blank line gives the empty name. */
  lemma NamesFromFileAreLines(raw: string)
    ensures var ls := Lines(Translate(raw));
      |NamesFromFile(raw)| == |ls| &&
      Flatten(ls) == Translate(raw) &&
      forall i :: 0 <= i < |ls| ==> NamesFromFile(raw)[i] == RStrip(StrIsSpace, ls[i])
  {
    NamesFromFileLines(Lines(Translate(raw)));
  }

  /** A file has as many lines as newlines, plus one for text after the last newline. */
  lemma {:induction false} LineCount(t: string)
    ensures |Lines(t)| == Newlines(t) + (if t != [] && t[|t| - 1] != '\n' then 1 else 0)
    decreases |t|
  {
    if t != [] {
      var k := FirstLineLength(t);
      var l, rest := t[..k], t[k..];
      assert |Lines(t)| == 1 + |Lines(rest)|;
      assert Newlines(t) == Newlines(l) + Newlines(rest) by {
        assert l + rest == t;
        NewlinesSplit(l, rest);
      }
      assert Newlines(l) == if t[k - 1] == '\n' then 1 else 0 by {
        assert IsLine(l);
        NewlinesOfLine(l);
      }
      LineCount(rest);
      if rest != [] {
        assert rest[|rest| - 1] == t[|t| - 1];
      }
    }
  }

  lemma {:induction false} NewlinesSplit(a: string, b: string)
    ensures Newlines(a + b) == Newlines(a) + Newlines(b)
    decreases |b|
  {
    if b == [] {
      assert a + b == a;
    } else {
      var b' := b[..|b| - 1];
      assert (a + b)[..|a + b| - 1] == a + b';
      NewlinesSplit(a, b');
    }
  }

  lemma {:induction false} NewlinesOfLine(l: string)
    requires IsLine(l)
    ensures Newlines(l) == if l[|l| - 1] == '\n' then 1 else 0
  {
    NoNewlines(l[..|l| - 1]);
  }

  lemma {:induction false} NoNewlines(s: string)
    requires forall j :: 0 <= j < |s| ==> s[j] != '\n'
    ensures Newlines(s) == 0
  {
    if s != [] {
      NoNewlines(s[..|s| - 1]);
    }
  }

  /** The comprehension `[line for index, line in enumerate(names) if index < limit]`,
      walked from position `from`. */
  function KeepBelow(names: seq<string>, limit: int, from: nat): seq<string>
    requires from <= |names|
    decreases |names| - from
  {
    if from == |names| then []
    else if from < limit then [names[from]] + KeepBelow(names, limit, from + 1)
    else KeepBelow(names, limit, from + 1)
  }

  /** The comprehension keeps exactly the names before position `limit`. */
  lemma {:induction false} KeepBelowIsPrefix(names: seq<string>, limit: int, from: nat)
    requires from <= |names|
    ensures KeepBelow(names, limit, from) ==
      if from < limit then names[from..if limit < |names| then limit else |names|] else []
    decreases |names| - from
  {
    if from < |names| {
      KeepBelowIsPrefix(names, limit, from + 1);
    }
  }

  /** Lines 150-152: a positive limit keeps that many names from the front. */
  function Limit(names: seq<string>, limit: int): seq<string>
  {
    if limit > 0 then KeepBelow(names, limit, 0) else names
  }

  /** A positive limit yields the first min(limit, |names|) names in their order;
      any other limit yields the list unchanged. */
  lemma LimitIsPrefix(names: seq<string>, limit: int)
    ensures var r := Limit(names, limit);
      |r| == (if 0 < limit < |names| then limit else |names|) && r == names[..|r|]
  {
    if limit > 0 {
      KeepBelowIsPrefix(names, limit, 0);
    }
  }

  /** Lines 144-152: the file's names when a file is named (a non-empty path),
      otherwise the catalog's list, then the limit. `fileText` is what reading
      the file gives. */
  function ResolveDevices(deviceFile: Option<string>, fileText: string, catalog: seq<string>, limit: int): (r: seq<string>)
    ensures var all := if deviceFile.Some? && deviceFile.value != "" then NamesFromFile(fileText) else catalog;
      |r| == (if 0 < limit < |all| then limit else |all|) && r == all[..|r|]
  {
    var all := if deviceFile.Some? && deviceFile.value != "" then NamesFromFile(fileText) else catalog;
    LimitIsPrefix(all, limit);
    Limit(all, limit)
  }
}
