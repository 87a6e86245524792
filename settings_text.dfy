/**
 * The message list of the settings form (TelecallApp.save_settings): the text
 * box is stripped, split on line breaks, each line is stripped, and the blank
 * lines are dropped. Strings are sequences of code points, as in Python 3.
 */
module SettingsText {

  import opened Sequences

  /** The code points for which str.isspace() holds, the set str.strip() removes. */
  predicate IsSpace(c: char) {
    || c == '\t' || c == '\n' || c == '\U{000B}' || c == '\U{000C}' || c == '\r'
    || ('\U{001C}' <= c <= '\U{001F}') || c == ' ' || c == '\U{0085}' || c == '\U{00A0}'
    || c == '\U{1680}' || ('\U{2000}' <= c <= '\U{200A}') || c == '\U{2028}' || c == '\U{2029}'
    || c == '\U{202F}' || c == '\U{205F}' || c == '\U{3000}'
  }

  /** Neither end of `s` is a whitespace code point. */
  predicate Stripped(s: string) {
    s == [] || (!IsSpace(s[0]) && !IsSpace(s[|s| - 1]))
  }

  /** `s` with its leading whitespace removed: the longest suffix that starts with a non-space. */
  function TrimStart(s: string): (r: string)
    ensures |r| <= |s| && r == s[|s| - |r|..]
    ensures forall k :: 0 <= k < |s| - |r| ==> IsSpace(s[k])
    ensures r == [] || !IsSpace(r[0])
  {
    if s == [] then []
    else if IsSpace(s[0]) then TrimStart(s[1..])
    else s
  }

  /** `s` with its trailing whitespace removed: the longest prefix that ends with a non-space. */
  function TrimEnd(s: string): (r: string)
    ensures |r| <= |s| && r == s[..|r|]
    ensures forall k :: |r| <= k < |s| ==> IsSpace(s[k])
    ensures r == [] || !IsSpace(r[|r| - 1])
  {
    if s == [] then []
    else if IsSpace(s[|s| - 1]) then TrimEnd(s[..|s| - 1])
    else s
  }

  /**
   * str.strip() with no argument: the result has no whitespace at either end,
   * keeps a stripped string whole, and takes its characters from `s`.
   */
  function Strip(s: string): (r: string)
    ensures Stripped(r)
    ensures Stripped(s) ==> r == s
    ensures forall k :: 0 <= k < |r| ==> r[k] in s
  {
    StripShape(s);
    TrimEnd(TrimStart(s))
  }

  lemma {:induction false} StripShape(s: string)
    ensures var r := TrimEnd(TrimStart(s));
      && Stripped(r)
      && (Stripped(s) ==> r == s)
      && (forall k :: 0 <= k < |r| ==> r[k] in s)
  {
    var t := TrimStart(s);
    var r := TrimEnd(t);
    var i := |s| - |t|;
    if r != [] {
      assert r[0] == t[0];
    }
    forall k | 0 <= k < |r| ensures r[k] in s {
      assert r[k] == t[k] == s[i + k];
    }
    if Stripped(s) && s != [] {
      assert t == s;
      assert r == s;
    }
  }

  /** A line strips to nothing exactly when it is all whitespace. */
  lemma StripBlank(s: string)
    ensures Strip(s) == [] <==> forall k :: 0 <= k < |s| ==> IsSpace(s[k])
  {
    var t := TrimStart(s);
    var i := |s| - |t|;
    if Strip(s) == [] {
      assert t == [];
    } else {
      assert !IsSpace(s[i]);
    }
  }

  /**
   * Strip removes only the whitespace in front of and behind one contiguous
   * piece of `s`, the one that starts at index `i`.
   */
  lemma StripInfix(s: string) returns (i: nat)
    ensures i + |Strip(s)| <= |s| && Strip(s) == s[i..i + |Strip(s)|]
    ensures forall k :: 0 <= k < i ==> IsSpace(s[k])
    ensures forall k :: i + |Strip(s)| <= k < |s| ==> IsSpace(s[k])
  {
    var t := TrimStart(s);
    var r := TrimEnd(t);
    assert Strip(s) == r;
    i := |s| - |t|;
    assert t == s[i..];
    assert r == t[..|r|];
    SliceOfSuffix(s, i, |r|);
    TailSpaces(s, t, i, |r|);
  }

  /** Whitespace at the end of the suffix `t` of `s` is whitespace at the end of `s`. */
  lemma TailSpaces(s: string, t: string, i: nat, n: nat)
    requires i + |t| == |s| && t == s[i..] && n <= |t|
    requires forall k :: n <= k < |t| ==> IsSpace(t[k])
    ensures forall k :: i + n <= k < |s| ==> IsSpace(s[k])
  {
    forall k | i + n <= k < |s| ensures IsSpace(s[k]) {
      assert s[k] == t[k - i];
    }
  }

  lemma SliceOfSuffix(s: string, i: nat, n: nat)
    requires i + n <= |s|
    ensures s[i..][..n] == s[i..i + n]
  {
  }

  /** str.split(sep): the pieces between the occurrences of `sep`; "" gives [""]. */
  function Split(s: string, sep: char): (parts: seq<string>)
    ensures |parts| >= 1
    ensures forall k :: 0 <= k < |parts| ==> sep !in parts[k]
    ensures Join(parts, sep) == s
  {
    if s == [] then [[]]
    else
      var rest := Split(s[1..], sep);
      if s[0] == sep then [[]] + rest
      else [[s[0]] + rest[0]] + rest[1..]
  }

  /** sep.join(parts). */
  function Join(parts: seq<string>, sep: char): string
  {
    if parts == [] then []
    else if |parts| == 1 then parts[0]
    else parts[0] + [sep] + Join(parts[1..], sep)
  }

  /** Splitting a join of pieces free of the separator gives the pieces back. */
  lemma {:induction false} JoinSplit(parts: seq<string>, sep: char)
    requires |parts| >= 1
    requires forall k :: 0 <= k < |parts| ==> sep !in parts[k]
    ensures Split(Join(parts, sep), sep) == parts
    decreases |parts|, |parts[0]|
  {
    var p := parts[0];
    if |parts| == 1 {
      PieceSplit(p, sep);
    } else if p == [] {
      var tail := Join(parts[1..], sep);
      assert Join(parts, sep) == [sep] + tail;
      assert ([sep] + tail)[1..] == tail;
      JoinSplit(parts[1..], sep);
      assert parts == [[]] + parts[1..];
    } else {
      var shorter := [p[1..]] + parts[1..];
      assert shorter[1..] == parts[1..];
      assert Join(shorter, sep) == p[1..] + [sep] + Join(parts[1..], sep);
      var s := Join(parts, sep);
      assert s == [p[0]] + Join(shorter, sep);
      assert s[1..] == Join(shorter, sep);
      assert p[0] != sep by {
        assert p[0] in parts[0];
      }
      forall k | 0 <= k < |shorter| ensures sep !in shorter[k] {
        if k == 0 {
          assert forall c :: c in p[1..] ==> c in p;
        } else {
          assert shorter[k] == parts[k];
        }
      }
      JoinSplit(shorter, sep);
      assert [p[0]] + p[1..] == p;
    }
  }

  /** A piece free of the separator splits into itself. */
  lemma {:induction false} PieceSplit(p: string, sep: char)
    requires sep !in p
    ensures Split(p, sep) == [p]
    decreases |p|
  {
    if p != [] {
      assert p[0] != sep by {
        assert p[0] in p;
      }
      assert sep !in p[1..] by {
        assert forall c :: c in p[1..] ==> c in p;
      }
      PieceSplit(p[1..], sep);
      assert [p[0]] + p[1..] == p;
    }
  }

  /** The comprehension over the lines: each line stripped, the blank ones dropped. */
  function NonBlank(lines: seq<string>): (ms: seq<string>)
    ensures |ms| <= |lines|
    ensures forall j :: 0 <= j < |ms| ==> ms[j] != [] && Stripped(ms[j])
  {
    if lines == [] then []
    else
      var m := Strip(lines[0]);
      (if m != [] then [m] else []) + NonBlank(lines[1..])
  }

  /**
   * The message list save_settings stores for the text of the message box:
   * every message is non-empty, has no whitespace at either end and spans a
   * single line.
   */
  function ParseMessages(text: string): (ms: seq<string>)
    ensures forall j :: 0 <= j < |ms| ==> ms[j] != [] && Stripped(ms[j]) && '\n' !in ms[j]
  {
    var lines := Split(Strip(text), '\n');
    NonBlankLines(lines);
    NonBlank(lines)
  }

  /** Each line with its whitespace stripped, in line order. */
  function StripEach(lines: seq<string>): seq<string>
  {
    seq(|lines|, k requires 0 <= k < |lines| => Strip(lines[k]))
  }

  /**
   * The parsed messages are the stripped lines of the text box, in line order,
   * with the blank ones left out: every message is the stripped text of a
   * line, and every line that is not blank yields its stripped text, once per
   * line it stands on.
   */
  lemma ParseMessagesShape(text: string)
    ensures var ms := ParseMessages(text);
      && Subsequence(ms, StripEach(Split(Strip(text), '\n')))
      && (forall m :: m != [] ==> multiset(ms)[m] == multiset(StripEach(Split(Strip(text), '\n')))[m])
      && (forall line :: line in Split(Strip(text), '\n') && Strip(line) != [] ==> Strip(line) in ms)
  {
    var lines := Split(Strip(text), '\n');
    NonBlankLines(lines);
    NonBlankOrder(lines);
  }

  /**
   * The comprehension keeps the stripped lines in their order, leaving out only
   * blank ones: each non-empty stripped line is kept as often as it occurs.
   */
  lemma {:induction false} NonBlankOrder(lines: seq<string>)
    ensures Subsequence(NonBlank(lines), StripEach(lines))
    ensures forall m :: m != [] ==> multiset(NonBlank(lines))[m] == multiset(StripEach(lines))[m]
  {
    NonBlankCount(lines);
    if lines != [] {
      NonBlankOrder(lines[1..]);
      var m := Strip(lines[0]);
      var rest := NonBlank(lines[1..]);
      var ys := StripEach(lines);
      StripEachTail(lines);
      if m != [] {
        assert NonBlank(lines) == [m] + rest;
        assert ([m] + rest)[1..] == rest;
      } else {
        assert NonBlank(lines) == rest;
        SubsequenceDrop(rest, ys);
      }
    }
  }

  lemma StripEachTail(lines: seq<string>)
    requires lines != []
    ensures StripEach(lines) == [Strip(lines[0])] + StripEach(lines[1..])
  {
    var ys := StripEach(lines);
    var tail := StripEach(lines[1..]);
    var zs := [Strip(lines[0])] + tail;
    assert |zs| == |ys|;
    forall k | 0 <= k < |ys| ensures zs[k] == ys[k] {
      if k > 0 {
        assert zs[k] == tail[k - 1];
        assert lines[1..][k - 1] == lines[k];
      }
    }
  }

  lemma {:induction false} NonBlankCount(lines: seq<string>)
    ensures forall m :: m != [] ==> multiset(NonBlank(lines))[m] == multiset(StripEach(lines))[m]
  {
    if lines != [] {
      NonBlankCount(lines[1..]);
      StripEachTail(lines);
      var h := Strip(lines[0]);
      var head := if h != [] then [h] else [];
      assert NonBlank(lines) == head + NonBlank(lines[1..]);
      assert multiset(NonBlank(lines)) == multiset(head) + multiset(NonBlank(lines[1..]));
      assert multiset(StripEach(lines)) == multiset([h]) + multiset(StripEach(lines[1..]));
    }
  }

  lemma {:induction false} NonBlankLines(lines: seq<string>)
    requires forall k :: 0 <= k < |lines| ==> '\n' !in lines[k]
    ensures var ms := NonBlank(lines);
      && (forall j :: 0 <= j < |ms| ==> '\n' !in ms[j])
      && (forall line :: line in lines && Strip(line) != [] ==> Strip(line) in ms)
    decreases |lines|, 1
  {
    if lines != [] {
      NonBlankLinesStep(lines);
    }
  }

  lemma {:induction false} NonBlankLinesStep(lines: seq<string>)
    requires lines != []
    requires forall k :: 0 <= k < |lines| ==> '\n' !in lines[k]
    ensures var ms := NonBlank(lines);
      && (forall j :: 0 <= j < |ms| ==> '\n' !in ms[j])
      && (forall line :: line in lines && Strip(line) != [] ==> Strip(line) in ms)
    decreases |lines|, 0
  {
    NonBlankLines(lines[1..]);
    var m := Strip(lines[0]);
    var ms := NonBlank(lines);
    var rest := NonBlank(lines[1..]);
    var head := if m != [] then [m] else [];
    assert ms == head + rest;
    assert '\n' !in m;
    forall line | line in lines && Strip(line) != [] ensures Strip(line) in ms {
      if line != lines[0] {
        assert line in lines[1..];
      }
    }
  }

  /** Messages that are non-empty, stripped and single-line round-trip through the text box. */
  lemma {:induction false} ParseJoin(ms: seq<string>)
    requires forall j :: 0 <= j < |ms| ==> ms[j] != [] && Stripped(ms[j]) && '\n' !in ms[j]
    ensures ParseMessages(Join(ms, '\n')) == ms
  {
    if ms == [] {
      assert Join(ms, '\n') == [];
      assert Strip([]) == [];
      assert Split([], '\n') == [[]];
      assert NonBlank([[]]) == [];
    } else {
      var text := Join(ms, '\n');
      JoinEnds(ms, '\n');
      JoinSplit(ms, '\n');
      NonBlankKeeps(ms);
    }
  }

  /** The join of non-empty stripped pieces with a line break starts and ends with a non-space. */
  lemma {:induction false} JoinEnds(ms: seq<string>, sep: char)
    requires |ms| >= 1
    requires forall j :: 0 <= j < |ms| ==> ms[j] != [] && Stripped(ms[j])
    ensures var s := Join(ms, sep); s != [] && s[0] == ms[0][0] && s[|s| - 1] == ms[|ms| - 1][|ms[|ms| - 1]| - 1]
    ensures Stripped(Join(ms, sep))
    decreases |ms|
  {
    if |ms| > 1 {
      JoinEnds(ms[1..], sep);
      var s := Join(ms, sep);
      var tail := Join(ms[1..], sep);
      assert s == ms[0] + [sep] + tail;
      assert s[|s| - 1] == tail[|tail| - 1];
      assert ms[1..][|ms[1..]| - 1] == ms[|ms| - 1];
    }
  }

  /** Lines that are all non-empty and stripped are kept as they are. */
  lemma {:induction false} NonBlankKeeps(lines: seq<string>)
    requires forall j :: 0 <= j < |lines| ==> lines[j] != [] && Stripped(lines[j])
    ensures NonBlank(lines) == lines
  {
    if lines != [] {
      NonBlankKeeps(lines[1..]);
      assert lines == [lines[0]] + lines[1..];
    }
  }

  /** Saving the parsed list and parsing it again changes nothing. */
  lemma ParseIdempotent(text: string)
    ensures ParseMessages(Join(ParseMessages(text), '\n')) == ParseMessages(text)
  {
    ParseMessagesShape(text);
    ParseJoin(ParseMessages(text));
  }
}
