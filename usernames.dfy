/** The username a new tutor's login gets (timetabler/models.py:341-347): the tutor's name if
    it is one word, otherwise the first letter of the first word followed by the second word. */
module Usernames {
  import opened Seqs

  /** Python's `s.split(' ')`: the pieces between single spaces, so two spaces in a row give an
      empty piece. There is always at least one piece. */
  function Split(s: string): (pieces: seq<string>)
    ensures |pieces| >= 1
  {
    if s == [] then [""]
    else
      var rest := Split(s[1..]);
      if s[0] == ' ' then [""] + rest
      else [[s[0]] + rest[0]] + rest[1..]
  }

  /** No piece holds a space, and a name splits into one piece exactly when it has none. */
  lemma {:induction false} SplitShape(s: string)
    ensures forall p :: 0 <= p < |Split(s)| ==> ' ' !in Split(s)[p]
    ensures |Split(s)| == 1 <==> ' ' !in s
  {
    if s != [] {
      SplitShape(s[1..]);
      var rest := Split(s[1..]);
      assert forall x :: x in s <==> x == s[0] || x in s[1..];
      if s[0] != ' ' {
        assert ' ' !in [s[0]] + rest[0];
        assert forall p :: 1 <= p < |Split(s)| ==> Split(s)[p] == rest[p];
      }
    }
  }

  /** `' '.join(pieces)` */
  function Join(pieces: seq<string>): string {
    if pieces == [] then ""
    else if |pieces| == 1 then pieces[0]
    else pieces[0] + " " + Join(pieces[1..])
  }

  /** Splitting and joining again gives the name back. */
  lemma {:induction false} JoinSplit(s: string)
    ensures Join(Split(s)) == s
  {
    if s != [] {
      JoinSplit(s[1..]);
      if s[0] == ' ' {
        JoinSplitSpace(s);
      } else if |Split(s[1..])| == 1 {
        JoinSplitLast(s);
      } else {
        JoinSplitInner(s);
      }
    }
  }

  /** A leading space starts with an empty piece. */
  lemma JoinSplitSpace(s: string)
    requires s != [] && s[0] == ' ' && Join(Split(s[1..])) == s[1..]
    ensures Join(Split(s)) == s
  {
    var rest := Split(s[1..]);
    var pieces := [""] + rest;
    assert Split(s) == pieces && |pieces| >= 2 && pieces[1..] == rest;
    assert Join(pieces) == "" + " " + Join(rest);
    assert s == " " + s[1..];
  }

  /** A leading letter of the last piece. */
  lemma JoinSplitLast(s: string)
    requires s != [] && s[0] != ' ' && |Split(s[1..])| == 1 && Join(Split(s[1..])) == s[1..]
    ensures Join(Split(s)) == s
  {
    var rest := Split(s[1..]);
    assert Split(s) == [[s[0]] + rest[0]];
    assert Join(rest) == rest[0];
    assert s == [s[0]] + s[1..];
  }

  /** A leading letter of a piece followed by others. */
  lemma JoinSplitInner(s: string)
    requires s != [] && s[0] != ' ' && |Split(s[1..])| != 1 && Join(Split(s[1..])) == s[1..]
    ensures Join(Split(s)) == s
  {
    var rest := Split(s[1..]);
    assert Split(s) == [[s[0]] + rest[0]] + rest[1..];
    JoinLetter(s[0], rest[0], rest[1..]);
    assert [rest[0]] + rest[1..] == rest;
    assert s == [s[0]] + s[1..];
  }

  /** A letter in front of the first of several pieces is a letter in front of their join. */
  lemma JoinLetter(c: char, head: string, tail: seq<string>)
    requires tail != []
    ensures Join([[c] + head] + tail) == [c] + Join([head] + tail)
  {
    JoinCons([c] + head, tail);
    JoinCons(head, tail);
    assert ([c] + head) + " " + Join(tail) == [c] + (head + " " + Join(tail));
  }

  /** Joining a first piece in front of at least one more. */
  lemma JoinCons(head: string, tail: seq<string>)
    requires tail != []
    ensures Join([head] + tail) == head + " " + Join(tail)
  {
    assert ([head] + tail)[1..] == tail;
  }

  /** Joining pieces without spaces and splitting again gives the pieces back. */
  lemma {:induction false} SplitJoin(pieces: seq<string>)
    requires |pieces| >= 1 && forall p :: 0 <= p < |pieces| ==> ' ' !in pieces[p]
    ensures Split(Join(pieces)) == pieces
  {
    if |pieces| == 1 {
      SplitWord(pieces[0]);
    } else {
      SplitJoin(pieces[1..]);
      SplitWordThen(pieces[0], Join(pieces[1..]));
      assert [pieces[0]] + pieces[1..] == pieces;
    }
  }

  /** A word without spaces is a single piece. */
  lemma {:induction false} SplitWord(w: string)
    requires ' ' !in w
    ensures Split(w) == [w]
  {
    if w != [] {
      SplitWord(w[1..]);
      assert [w[0]] + w[1..] == w;
    }
  }

  /** A word followed by a space ends the first piece. */
  lemma {:induction false} SplitWordThen(w: string, rest: string)
    requires ' ' !in w
    ensures Split(w + " " + rest) == [w] + Split(rest)
  {
    var s := w + " " + rest;
    if w == [] {
      assert s == " " + rest && s[0] == ' ' && s[1..] == rest;
    } else {
      assert s[0] == w[0] && s[0] != ' ';
      assert s[1..] == w[1..] + " " + rest;
      assert ' ' !in w[1..] by {
        assert forall q :: 0 <= q < |w[1..]| ==> w[1..][q] == w[q + 1];
      }
      SplitWordThen(w[1..], rest);
      var tail := Split(s[1..]);
      assert tail == [w[1..]] + Split(rest) && tail[0] == w[1..] && tail[1..] == Split(rest);
      assert Split(s) == [[s[0]] + tail[0]] + tail[1..];
      assert [w[0]] + w[1..] == w;
    }
  }

  /** `generate_user_for_tutor`'s rule (models.py:342-346). `None` where Python raises an
      IndexError: the name has a space but its first piece is empty. */
  function Username(name: string): (username: Option<string>)
    ensures ' ' !in name ==> username == Some(name)
    ensures username.None? ==> |name| > 0 && name[0] == ' '
  {
    var pieces := Split(name);
    SplitShape(name);
    if |pieces| > 1 then
      if pieces[0] == "" then None else Some([pieces[0][0]] + pieces[1])
    else Some(name)
  }

  /** A name of several words gives the first word's initial followed by the second word;
      later words are ignored. */
  lemma UsernameOfWords(words: seq<string>)
    requires |words| >= 2 && words[0] != [] && forall p :: 0 <= p < |words| ==> ' ' !in words[p]
    ensures Username(Join(words)) == Some([words[0][0]] + words[1])
  {
    SplitJoin(words);
  }

  /** A name starting with a space has no username: the source fails on it. */
  lemma UsernameOfLeadingSpace(rest: string)
    ensures Username(" " + rest) == None
  {
    assert (" " + rest)[1..] == rest;
  }
}
