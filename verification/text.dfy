/** The ECMAScript string primitives the pages rely on: `trim`, `toUpperCase`,
    `charAt` and `split` on a one-character separator. */
module Text {

  /** ECMAScript WhiteSpace and LineTerminator code points: exactly what
      `String.prototype.trim` strips and what `parseInt` skips. */
  predicate IsWhiteSpace(c: char) {
    var n := c as int;
    || n == 0x09 || n == 0x0A || n == 0x0B || n == 0x0C || n == 0x0D
    || n == 0x20 || n == 0xA0 || n == 0x1680
    || (0x2000 <= n <= 0x200A)
    || n == 0x2028 || n == 0x2029 || n == 0x202F || n == 0x205F
    || n == 0x3000 || n == 0xFEFF
  }

  /** A string that is empty or made of white space only. */
  predicate IsBlank(s: string) {
    forall i :: 0 <= i < |s| ==> IsWhiteSpace(s[i])
  }

  /** Strips leading white space: the result is the suffix of `s` that starts at
      the first non-white-space character. */
  function TrimStart(s: string): (r: string)
    ensures |r| <= |s| && r == s[|s| - |r|..]
    ensures IsBlank(s[..|s| - |r|])
    ensures r == [] || !IsWhiteSpace(r[0])
  {
    if |s| > 0 && IsWhiteSpace(s[0]) then
      var r := TrimStart(s[1..]);
      assert s[..|s| - |r|] == [s[0]] + s[1..][..|s| - 1 - |r|];
      r
    else s
  }

  /** A string that does not start with white space is its own `TrimStart`. */
  lemma TrimStartKeeps(s: string)
    requires s == [] || !IsWhiteSpace(s[0])
    ensures TrimStart(s) == s
  {
  }

  /** Strips trailing white space: the result is the prefix of `s` that ends at
      the last non-white-space character. */
  function TrimEnd(s: string): (r: string)
    ensures |r| <= |s| && r == s[..|r|]
    ensures IsBlank(s[|r|..])
    ensures r == [] || !IsWhiteSpace(r[|r| - 1])
  {
    if |s| > 0 && IsWhiteSpace(s[|s| - 1]) then
      var r := TrimEnd(s[..|s| - 1]);
      assert s[|r|..] == s[..|s| - 1][|r|..] + [s[|s| - 1]];
      r
    else s
  }

  /** A string that does not end with white space is its own `TrimEnd`. */
  lemma TrimEndKeeps(s: string)
    requires s == [] || !IsWhiteSpace(s[|s| - 1])
    ensures TrimEnd(s) == s
  {
  }

  /** `String.prototype.trim`. The result is empty exactly when the whole input
      was blank, and otherwise starts and ends with a non-white-space character. */
  function Trim(s: string): (r: string)
    ensures r == [] <==> IsBlank(s)
    ensures r != [] ==> !IsWhiteSpace(r[0]) && !IsWhiteSpace(r[|r| - 1])
  {
    var t := TrimStart(s);
    var r := TrimEnd(t);
    if r == [] then
      BlankAfterTrimStart(s, t);
      r
    else
      assert r[0] == t[0];
      r
  }

  /** When stripping the leading white space leaves nothing but more white space,
      the whole string was blank. */
  lemma {:induction false} BlankAfterTrimStart(s: string, t: string)
    requires t == TrimStart(s) && TrimEnd(t) == []
    ensures IsBlank(s)
  {
    assert IsBlank(t[0..]);
    assert t[0..] == t;
    assert t == [];
    forall i | 0 <= i < |s| ensures IsWhiteSpace(s[i]) {
      assert s[i] == s[..|s|][i];
    }
  }

  /** Trimming an already trimmed string changes nothing. */
  lemma TrimIdempotent(s: string)
    ensures Trim(Trim(s)) == Trim(s)
  {
    var r := Trim(s);
    if r == [] {
      assert IsBlank(r);
    } else {
      TrimStartKeeps(r);
      TrimEndKeeps(r);
    }
  }

  /** The lower-case letters `toUpperCase` changes here: ASCII `a`..`z` and the
      Latin-1 letters `à`..`þ` other than the division sign. */
  predicate IsLowerLetter(c: char) {
    || 'a' <= c <= 'z'
    || (0xE0 <= c as int <= 0xFE && c as int != 0xF7)
  }

  /** The upper-case form of one character, as `toUpperCase` maps it: each
      lower-case letter moves down by 0x20 to its capital; every other
      character is left as it is. */
  function UpperChar(c: char): char {
    if IsLowerLetter(c) then (c as int - 0x20) as char else c
  }

  /** `String.prototype.toUpperCase`, character by character. The result has
      the input's length, holds no lower-case letter, and keeps every character
      that is not one. */
  function ToUpper(s: string): (r: string)
    ensures |r| == |s|
    ensures forall i :: 0 <= i < |r| ==> !IsLowerLetter(r[i])
    ensures forall i :: 0 <= i < |s| && !IsLowerLetter(s[i]) ==> r[i] == s[i]
  {
    seq(|s|, i requires 0 <= i < |s| => UpperChar(s[i]))
  }

  /** Upper-casing an upper-cased string changes nothing. */
  lemma ToUpperIdempotent(s: string)
    ensures ToUpper(ToUpper(s)) == ToUpper(s)
  {
    var r := ToUpper(s);
    assert forall i :: 0 <= i < |r| ==> ToUpper(r)[i] == r[i];
  }

  /** `String.prototype.charAt`: the one-character string at `i`, or the empty
      string past the end. */
  function CharAt(s: string, i: nat): (r: string)
    ensures i < |s| ==> r == [s[i]]
    ensures i >= |s| ==> r == []
  {
    if i < |s| then [s[i]] else []
  }

  /** `String.prototype.split` with a one-character separator: the pieces
      between separators, with an empty piece wherever two separators touch or
      a separator starts or ends the string. */
  function Split(s: string, sep: char): (parts: seq<string>)
    ensures |parts| >= 1
    ensures |parts| == 1 <==> sep !in s
  {
    if |s| == 0 then [""]
    else
      var rest := Split(s[1..], sep);
      assert s == [s[0]] + s[1..];
      if s[0] == sep then [""] + rest
      else [[s[0]] + rest[0]] + rest[1..]
  }

  /** `Array.prototype.join` with a one-character separator. */
  function Join(parts: seq<string>, sep: char): string
    requires |parts| >= 1
  {
    if |parts| == 1 then parts[0] else parts[0] + [sep] + Join(parts[1..], sep)
  }

  /** No piece of a split holds the separator. */
  lemma {:induction false} SplitPiecesLackSeparator(s: string, sep: char)
    ensures forall i :: 0 <= i < |Split(s, sep)| ==> sep !in Split(s, sep)[i]
  {
    if |s| > 0 {
      var rest := Split(s[1..], sep);
      SplitPiecesLackSeparator(s[1..], sep);
      if s[0] != sep {
        assert sep !in [s[0]] + rest[0];
      }
    }
  }

  /** Joining the pieces of a split gives the string back. */
  lemma {:induction false} JoinSplit(s: string, sep: char)
    ensures Join(Split(s, sep), sep) == s
  {
    if |s| > 0 {
      var rest := Split(s[1..], sep);
      if s[0] == sep {
        calc {
          Join(Split(s, sep), sep);
        ==
          Join([""] + rest, sep);
        == { assert ([""] + rest)[1..] == rest; }
          "" + [sep] + Join(rest, sep);
        == { JoinSplit(s[1..], sep); }
          [s[0]] + s[1..];
        }
      } else {
        calc {
          Join(Split(s, sep), sep);
        ==
          Join([[s[0]] + rest[0]] + rest[1..], sep);
        == { JoinPrefixFirst(s[0], rest, sep); }
          [s[0]] + Join(rest, sep);
        == { JoinSplit(s[1..], sep); }
          [s[0]] + s[1..];
        }
      }
      assert s == [s[0]] + s[1..];
    }
  }

  /** Putting a character in front of the first piece puts it in front of the join. */
  lemma JoinPrefixFirst(c: char, parts: seq<string>, sep: char)
    requires |parts| >= 1
    ensures Join([[c] + parts[0]] + parts[1..], sep) == [c] + Join(parts, sep)
  {
    var ps := [[c] + parts[0]] + parts[1..];
    assert ps[1..] == parts[1..];
    if |parts| > 1 {
      assert Join(ps, sep) == ([c] + parts[0]) + [sep] + Join(parts[1..], sep);
    }
  }

  /** Splitting a string whose first piece `a` holds no separator. */
  lemma {:induction false} SplitCons(a: string, t: string, sep: char)
    requires sep !in a
    ensures Split(a + t, sep) == [a + Split(t, sep)[0]] + Split(t, sep)[1..]
  {
    var st := Split(t, sep);
    if a == [] {
      assert a + t == t && a + st[0] == st[0];
      assert st == [st[0]] + st[1..];
    } else {
      var rest := Split(a[1..] + t, sep);
      assert a == [a[0]] + a[1..];
      assert sep !in a[1..] && a[0] != sep;
      calc {
        Split(a + t, sep);
      == { assert (a + t)[0] == a[0] && (a + t)[1..] == a[1..] + t; }
        [[a[0]] + rest[0]] + rest[1..];
      == { SplitCons(a[1..], t, sep); }
        [[a[0]] + (a[1..] + st[0])] + st[1..];
      == { assert [a[0]] + (a[1..] + st[0]) == a + st[0]; }
        [a + st[0]] + st[1..];
      }
    }
  }

  /** Splitting the join of separator-free pieces gives the pieces back. */
  lemma {:induction false} SplitJoin(parts: seq<string>, sep: char)
    requires |parts| >= 1
    requires forall i :: 0 <= i < |parts| ==> sep !in parts[i]
    ensures Split(Join(parts, sep), sep) == parts
  {
    if |parts| == 1 {
      SplitCons(parts[0], [], sep);
      assert parts[0] + [] == parts[0];
      assert parts[0] + "" == parts[0];
    } else {
      var rest := parts[1..];
      SplitJoin(rest, sep);
      var tail := [sep] + Join(rest, sep);
      assert Join(parts, sep) == parts[0] + tail;
      SplitCons(parts[0], tail, sep);
      assert tail[0] == sep && tail[1..] == Join(rest, sep);
      assert Split(tail, sep) == [""] + rest;
      assert parts[0] + "" == parts[0];
      assert parts == [parts[0]] + rest;
    }
  }
}
