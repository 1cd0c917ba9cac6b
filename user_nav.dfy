/** The signed-in user's display name and the initials shown in the avatar. */
module UserNav {
  import opened Wrappers
  import opened TextOps

  /** `full_name || email || ""`: the first non-empty of the two, else empty. */
  function UserName(fullName: Option<string>, email: Option<string>): (r: string)
    ensures fullName.Some? && fullName.value != "" ==> r == fullName.value
    ensures (fullName.None? || fullName.value == "") && email.Some? && email.value != "" ==> r == email.value
    ensures r == "" <==> (fullName.None? || fullName.value == "") && (email.None? || email.value == "")
  {
    if fullName.Some? && fullName.value != "" then fullName.value
    else if email.Some? && email.value != "" then email.value
    else ""
  }

  function SpaceCount(s: string): nat
    decreases |s|
  {
    if s == [] then 0 else (if s[0] == ' ' then 1 else 0) + SpaceCount(s[1..])
  }

  /** `s.split(" ")`: the pieces between single spaces, empty ones included;
      the empty string splits into one empty piece. */
  function Split(s: string): (r: seq<string>)
    ensures |r| == SpaceCount(s) + 1
    ensures forall i :: 0 <= i < |r| ==> ' ' !in r[i]
    decreases |s|
  {
    if s == [] then [""]
    else
      var rest := Split(s[1..]);
      if s[0] == ' ' then [""] + rest
      else [[s[0]] + rest[0]] + rest[1..]
  }

  /** `pieces.join(sep)`. */
  function Join(pieces: seq<string>, sep: string): string
    decreases |pieces|
  {
    if pieces == [] then ""
    else if |pieces| == 1 then pieces[0]
    else pieces[0] + sep + Join(pieces[1..], sep)
  }

  /** Joining the pieces with a space gives back the original text. */
  lemma {:induction false} JoinSplit(s: string)
    ensures Join(Split(s), " ") == s
    decreases |s|
  {
    if s != [] {
      var rest := Split(s[1..]);
      JoinSplit(s[1..]);
      if s[0] == ' ' {
        assert ([""] + rest)[1..] == rest;
        assert s == " " + s[1..];
      } else {
        var pieces := [[s[0]] + rest[0]] + rest[1..];
        if |rest| == 1 {
          assert s == [s[0]] + s[1..];
        } else {
          assert pieces[1..] == rest[1..];
          assert Join(rest, " ") == rest[0] + " " + Join(rest[1..], " ");
          assert s == [s[0]] + s[1..];
        }
      }
    }
  }

  /** `pieces.map(n => n[0]).join("")`: the first character of each piece;
      an empty piece yields `undefined`, which joins as nothing. */
  function Heads(pieces: seq<string>): (r: string)
    ensures |r| <= |pieces|
    decreases |pieces|
  {
    if pieces == [] then ""
    else (if pieces[0] == "" then "" else [pieces[0][0]]) + Heads(pieces[1..])
  }

  /** The characters that begin a word: not a space, and first in the text
      (when `atStart`) or right after a space. */
  function WordStarts(s: string, atStart: bool): string
    decreases |s|
  {
    if s == [] then ""
    else (if s[0] != ' ' && atStart then [s[0]] else "") + WordStarts(s[1..], s[0] == ' ')
  }

  /** The heads of the split pieces are exactly the word starts. */
  lemma {:induction false} HeadsAreWordStarts(s: string)
    ensures Heads(Split(s)) == WordStarts(s, true)
    ensures Heads(Split(s)[1..]) == WordStarts(s, false)
    decreases |s|
  {
    if s != [] {
      var rest := Split(s[1..]);
      HeadsAreWordStarts(s[1..]);
      if s[0] == ' ' {
        assert Split(s) == [""] + rest;
        assert Split(s)[1..] == rest;
      } else {
        var pieces := [[s[0]] + rest[0]] + rest[1..];
        assert Split(s) == pieces;
        assert pieces[1..] == rest[1..];
        assert Heads(rest) == (if rest[0] == "" then "" else [rest[0][0]]) + Heads(rest[1..]);
      }
    }
  }

  /** The avatar initials: the first letter of every space-separated word,
      in order, upper-cased. */
  function Initials(userName: string): (r: string)
    ensures |r| <= SpaceCount(userName) + 1
    ensures r == Upper(WordStarts(userName, true))
  {
    HeadsAreWordStarts(userName);
    Upper(Heads(Split(userName)))
  }

  /** A text of spaces only, leading, trailing or doubled, has no word
      starts. */
  lemma {:induction false} SpacesHaveNoWordStarts(s: string, atStart: bool)
    requires forall i :: 0 <= i < |s| ==> s[i] == ' '
    ensures WordStarts(s, atStart) == ""
    decreases |s|
  {
    if s != [] {
      assert forall i :: 0 <= i < |s[1..]| ==> s[1..][i] == s[i + 1];
      SpacesHaveNoWordStarts(s[1..], true);
    }
  }

  /** Spaces alone add no initials. */
  lemma BlankNameHasNoInitials(s: string)
    requires forall i :: 0 <= i < |s| ==> s[i] == ' '
    ensures Initials(s) == ""
  {
    SpacesHaveNoWordStarts(s, true);
  }

  /** Spaces around and between the words do not change the initials. */
  lemma ExtraSpacesIgnored(s: string, atStart: bool)
    ensures WordStarts(" " + s, atStart) == WordStarts(s, true)
  {
    assert (" " + s)[1..] == s;
  }
}
