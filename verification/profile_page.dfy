/** The profile page's avatar initials and the normalisation of the fetched
    full name. */
module ProfilePage {
  import opened Wrappers
  import Text

  /** The `profiles` row the page fetches: `full_name` may be null. */
  datatype ProfileRow = ProfileRow(fullName: Option<string>)

  /** The full name after the fetch: a missing row leaves the current value,
      a null name becomes the empty string, any other name is taken as is. */
  function FullNameAfterFetch(current: string, row: Option<ProfileRow>): (r: string)
    ensures row.None? ==> r == current
    ensures row.Some? && row.value.fullName.None? ==> r == ""
    ensures row.Some? && row.value.fullName.Some? ==> r == row.value.fullName.value
  {
    match row
    case None => current
    case Some(p) => p.fullName.GetOr("")
  }

  /** Loading the same row again changes nothing, and a row whose name is
      null leaves the avatar to the e-mail's initial, as an empty name does. */
  lemma FetchSettles(current: string, row: Option<ProfileRow>, email: Option<string>)
    ensures FullNameAfterFetch(FullNameAfterFetch(current, row), row) == FullNameAfterFetch(current, row)
    ensures row.Some? && row.value.fullName.None? ==>
              Initials(FullNameAfterFetch(current, row), email) == InitialsAsWritten("", email)
  {
    if row.Some? && row.value.fullName.None? {
      InitialsAgreeOnWellFormedNames("", email);
    }
  }

  /** `names[i][0]` inside a template literal: the first character, or the
      text "undefined" when the piece is empty. */
  function FirstOrUndefined(piece: string): string {
    if piece == [] then "undefined" else [piece[0]]
  }

  /** `getUserInitials` as written: from the full name if there is one (two
      initials when it holds a space), else from the e-mail, else "U". An
      empty piece of the split spells "undefined", so besides one or two
      characters the result can have 10 or 18, and only when the name holds
      a space. */
  function InitialsAsWritten(fullName: string, email: Option<string>): (r: string)
    ensures |r| in {1, 2, 10, 18}
    ensures |r| > 2 ==> ' ' in fullName
  {
    if fullName != [] then
      var names := Text.Split(fullName, ' ');
      if |names| >= 2 then Text.ToUpper(FirstOrUndefined(names[0]) + FirstOrUndefined(names[1]))
      else Text.ToUpper(Text.CharAt(fullName, 0))
    else if email.Some? && email.value != [] then Text.ToUpper(Text.CharAt(email.value, 0))
    else "U"
  }

  /** The pieces of the full name that hold characters: its words, every one
      of them and nothing else. */
  function Words(pieces: seq<string>): (ws: seq<string>)
    ensures forall i :: 0 <= i < |ws| ==> ws[i] != [] && ws[i] in pieces
    ensures forall p :: p in pieces && p != [] ==> p in ws
    ensures |ws| <= |pieces|
  {
    if pieces == [] then []
    else
      assert pieces == [pieces[0]] + pieces[1..];
      (if pieces[0] == [] then [] else [pieces[0]]) + Words(pieces[1..])
  }

  /** Dropping the empty pieces works piecewise, so the words keep their order. */
  lemma {:induction false} WordsAppend(a: seq<string>, b: seq<string>)
    ensures Words(a + b) == Words(a) + Words(b)
  {
    if a == [] {
      assert a + b == b;
    } else {
      var head := if a[0] == [] then [] else [a[0]];
      assert (a + b)[0] == a[0] && (a + b)[1..] == a[1..] + b;
      WordsAppend(a[1..], b);
      calc {
        Words(a + b);
      ==
        head + Words(a[1..] + b);
      ==
        head + (Words(a[1..]) + Words(b));
      ==
        (head + Words(a[1..])) + Words(b);
      }
    }
  }

  /** `getUserInitials` as evidently intended: the initials of the first two
      words of the full name, or of its only word; a name without a word falls
      back to the e-mail, then to "U". */
  function Initials(fullName: string, email: Option<string>): (r: string)
    ensures 1 <= |r| <= 2
  {
    var words := Words(Text.Split(fullName, ' '));
    if |words| >= 2 then Text.ToUpper([words[0][0], words[1][0]])
    else if |words| == 1 then Text.ToUpper([words[0][0]])
    else if email.Some? && email.value != [] then Text.ToUpper([email.value[0]])
    else "U"
  }

  // ---------------------------------------------------------------------------
  // Properties of the initials

  /** A full name whose first two space-separated pieces are non-empty gives
      the upper-cased first characters of those pieces. */
  lemma TwoNameInitials(fullName: string, email: Option<string>)
    requires var names := Text.Split(fullName, ' ');
             |names| >= 2 && names[0] != [] && names[1] != []
    ensures var names := Text.Split(fullName, ' ');
            InitialsAsWritten(fullName, email)
              == [Text.UpperChar(names[0][0]), Text.UpperChar(names[1][0])]
  {
    var names := Text.Split(fullName, ' ');
    assert ' ' in fullName;
    assert FirstOrUndefined(names[0]) + FirstOrUndefined(names[1]) == [names[0][0], names[1][0]];
  }

  /** A non-empty full name without a space gives one initial: its first
      character, upper-cased. */
  lemma OneNameInitial(fullName: string, email: Option<string>)
    requires fullName != [] && ' ' !in fullName
    ensures InitialsAsWritten(fullName, email) == [Text.UpperChar(fullName[0])]
  {
  }

  /** A non-empty full name decides the initials whatever the e-mail. */
  lemma FullNameBeatsEmail(fullName: string, e1: Option<string>, e2: Option<string>)
    requires fullName != []
    ensures InitialsAsWritten(fullName, e1) == InitialsAsWritten(fullName, e2)
  {
  }

  /** Without a full name, a non-empty e-mail gives its first character,
      upper-cased; with neither, the initials are "U". */
  lemma EmailAndDefaultInitials(email: Option<string>)
    ensures email.Some? && email.value != [] ==>
      InitialsAsWritten("", email) == [Text.UpperChar(email.value[0])]
    ensures email.None? || email.value == [] ==> InitialsAsWritten("", email) == "U"
  {
  }

  /** A full name ending in a space yields the word "undefined" among the
      initials: "Ana " becomes "AUNDEFINED". */
  lemma TrailingSpaceShowsUndefined()
    ensures InitialsAsWritten("Ana ", None) == "AUNDEFINED"
  {
    SplitAnaSpace();
    assert FirstOrUndefined("Ana") + FirstOrUndefined("") == "Aundefined";
    assert Text.ToUpper("Aundefined") == "AUNDEFINED";
  }

  /** Splitting "Ana " on spaces, one character at a time. */
  lemma SplitAnaSpace()
    ensures Text.Split("Ana ", ' ') == ["Ana", ""]
  {
    assert Text.Split("", ' ') == [""];
    assert " "[1..] == "";
    assert Text.Split(" ", ' ') == ["", ""];
    assert "a "[1..] == " ";
    assert ['a'] + "" == "a" && ["", ""][1..] == [""];
    assert Text.Split("a ", ' ') == ["a", ""];
    assert "na "[1..] == "a ";
    assert ['n'] + "a" == "na" && ["a", ""][1..] == [""];
    assert Text.Split("na ", ' ') == ["na", ""];
    assert "Ana "[1..] == "na ";
    assert ['A'] + "na" == "Ana" && ["na", ""][1..] == [""];
  }

  lemma {:induction false} WordsOfWords(pieces: seq<string>)
    requires |pieces| >= 2 && pieces[0] != [] && pieces[1] != []
    ensures |Words(pieces)| >= 2 && Words(pieces)[0] == pieces[0] && Words(pieces)[1] == pieces[1]
  {
    assert Words(pieces) == [pieces[0]] + Words(pieces[1..]);
    assert Words(pieces[1..]) == [pieces[1]] + Words(pieces[1..][1..]);
  }

  /** The corrected initials agree with the source's wherever the source gives
      proper initials: two non-empty leading pieces, a single word, or no full
      name at all. */
  lemma {:induction false} InitialsAgreeOnWellFormedNames(fullName: string, email: Option<string>)
    requires || fullName == []
             || ' ' !in fullName
             || (var names := Text.Split(fullName, ' ');
                 |names| >= 2 && names[0] != [] && names[1] != [])
    ensures Initials(fullName, email) == InitialsAsWritten(fullName, email)
  {
    var names := Text.Split(fullName, ' ');
    if fullName == [] {
      assert names == [""];
      assert Words(names) == [] + Words(names[1..]);
    } else if ' ' !in fullName {
      assert names == [fullName] by {
        Text.JoinSplit(fullName, ' ');
      }
      assert Words(names) == [fullName] + Words(names[1..]);
    } else {
      WordsOfWords(names);
      TwoNameInitials(fullName, email);
    }
  }

  /** The full name with its empty pieces dropped: its words, one space
      between each two. */
  function SquashSpaces(fullName: string): (m: string)
    ensures Words(Text.Split(m, ' ')) == Words(Text.Split(fullName, ' '))
    ensures Words(Text.Split(fullName, ' ')) == [] ==> m == []
    ensures Words(Text.Split(fullName, ' ')) != [] ==>
              Text.Split(m, ' ') == Words(Text.Split(fullName, ' '))
  {
    var ws := Words(Text.Split(fullName, ' '));
    if ws == [] then
      assert Words([""]) == [] + Words([]);
      ""
    else
      JoinWords(fullName);
      WordsAreWords(ws);
      Text.Join(ws, ' ')
  }

  /** Pieces that all hold characters are their own words. */
  lemma {:induction false} WordsAreWords(ws: seq<string>)
    requires forall i :: 0 <= i < |ws| ==> ws[i] != []
    ensures Words(ws) == ws
  {
    if ws != [] {
      WordsAreWords(ws[1..]);
      assert ws == [ws[0]] + ws[1..];
    }
  }

  /** The words of a name hold no space, so joining them with single spaces
      and splitting again gives them back. */
  lemma JoinWords(fullName: string)
    requires Words(Text.Split(fullName, ' ')) != []
    ensures var ws := Words(Text.Split(fullName, ' '));
            Text.Split(Text.Join(ws, ' '), ' ') == ws && ws[0] <= Text.Join(ws, ' ')
  {
    var pieces := Text.Split(fullName, ' ');
    var ws := Words(pieces);
    Text.SplitPiecesLackSeparator(fullName, ' ');
    forall i | 0 <= i < |ws| ensures ' ' !in ws[i] {
      var j :| 0 <= j < |pieces| && pieces[j] == ws[i];
    }
    Text.SplitJoin(ws, ' ');
  }

  /** The corrected initials are the source's initials of the name with its
      empty pieces dropped: the first letters of the first two words, or of
      the only word, and otherwise the e-mail's or "U". */
  lemma {:induction false} InitialsOfSquashedName(fullName: string, email: Option<string>)
    ensures Initials(fullName, email) == InitialsAsWritten(SquashSpaces(fullName), email)
  {
    var ws := Words(Text.Split(fullName, ' '));
    if ws != [] {
      var m := Text.Join(ws, ' ');
      JoinWords(fullName);
      assert m != [];
      if |ws| >= 2 {
        assert FirstOrUndefined(ws[0]) + FirstOrUndefined(ws[1]) == [ws[0][0], ws[1][0]];
      } else {
        assert m == ws[0];
      }
    }
  }

  /** Splitting a string that starts with a space: an empty piece, then the
      pieces of the rest. */
  lemma SplitLeadingSpace(rest: string)
    ensures Text.Split(" " + rest, ' ') == [""] + Text.Split(rest, ' ')
  {
    assert (" " + rest)[1..] == rest;
  }

  /** Splitting a space-free word followed by a space: the word, then the
      pieces of the rest. */
  lemma SplitWordThenSpace(first: string, rest: string)
    requires ' ' !in first
    ensures Text.Split(first + " " + rest, ' ') == [first] + Text.Split(rest, ' ')
  {
    var tail := Text.Split(rest, ' ');
    SplitLeadingSpace(rest);
    Text.SplitCons(first, " " + rest, ' ');
    assert first + " " + rest == first + (" " + rest);
    assert first + "" == first;
    assert ([""] + tail)[1..] == tail;
  }

  /** A leading space does not change the corrected initials. */
  lemma LeadingSpaceIgnored(fullName: string, email: Option<string>)
    ensures Initials(" " + fullName, email) == Initials(fullName, email)
  {
    SplitLeadingSpace(fullName);
    WordsAppend([""], Text.Split(fullName, ' '));
  }

  /** Two spaces between the first word and the rest count as one for the
      corrected initials. */
  lemma DoubledSpaceIgnored(first: string, rest: string, email: Option<string>)
    requires ' ' !in first
    ensures Initials(first + "  " + rest, email) == Initials(first + " " + rest, email)
  {
    var tail := Text.Split(rest, ' ');
    assert first + "  " + rest == first + " " + (" " + rest);
    SplitWordThenSpace(first, " " + rest);
    SplitLeadingSpace(rest);
    SplitWordThenSpace(first, rest);
    WordsAppend([first], [""] + tail);
    WordsAppend([""], tail);
    WordsAppend([first], tail);
  }

  /** The corrected initials never spell "undefined": a trailing space no
      longer matters. */
  lemma CorrectedTrailingSpace()
    ensures Initials("Ana ", None) == "A"
  {
    var names := Text.Split("Ana ", ' ');
    SplitAnaSpace();
    assert Words(names) == ["Ana"] + Words([""]);
    assert Words([""]) == [] + Words([]);
  }
}
