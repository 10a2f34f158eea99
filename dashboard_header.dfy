/** The avatar initials of the dashboard header:
    `name.split(" ").map(n => n[0]).join("")`. The first character of an
    empty segment is `undefined`, which `join` renders as nothing. */
module DashboardHeader {
  import opened Text

  /** The first character of each segment, in order. */
  function FirstChars(segments: seq<string>): (r: string)
    ensures |r| <= |segments|
  {
    if segments == [] then []
    else
      var last := segments[|segments| - 1];
      FirstChars(segments[..|segments| - 1]) + (if last == [] then [] else [last[0]])
  }

  /** There are no more initials than spaces plus one. */
  function Initials(name: string): (r: string)
    ensures |r| <= Occurrences(name, ' ') + 1
  {
    SplitOnSpec(name, ' ');
    FirstChars(SplitOn(name, ' '))
  }

  /** A character starts a word when it is not a space and is the first
      character or follows a space. */
  predicate StartsWord(name: string, i: int)
    requires 0 <= i < |name|
  {
    name[i] != ' ' && (i == 0 || name[i - 1] == ' ')
  }

  /** The characters that start a word, in order: an independent reading of
      what the initials are. */
  function WordStarts(name: string): string
  {
    if name == [] then []
    else WordStarts(name[..|name| - 1]) + (if StartsWord(name, |name| - 1) then [name[|name| - 1]] else [])
  }

  /** The last segment is empty exactly when the name is empty or ends with a
      space; otherwise it starts where the last word starts. */
  lemma {:induction false} LastSegment(name: string)
    ensures var p := SplitOn(name, ' ');
      (p[|p| - 1] == [] <==> name == [] || name[|name| - 1] == ' ')
  {
    if name != [] {
      LastSegment(name[..|name| - 1]);
    }
  }

  /** Adding a segment adds its first character, if it has one. */
  lemma FirstCharsSnoc(p: seq<string>, seg: string)
    ensures FirstChars(p + [seg]) == FirstChars(p) + (if seg == [] then [] else [seg[0]])
  {
    assert (p + [seg])[..|p|] == p;
  }

  /** The initials are exactly the characters that start a word: empty
      segments, from leading, trailing or doubled spaces, contribute
      nothing. */
  lemma {:induction false} InitialsAreWordStarts(name: string)
    ensures Initials(name) == WordStarts(name)
  {
    if name != [] {
      var init := name[..|name| - 1];
      var c := name[|name| - 1];
      InitialsAreWordStarts(init);
      LastSegment(init);
      var p := SplitOn(init, ' ');
      assert init == [] || init[|init| - 1] == name[|name| - 2];
      if c == ' ' {
        FirstCharsSnoc(p, []);
      } else {
        var front, last := p[..|p| - 1], p[|p| - 1];
        assert p == front + [last];
        FirstCharsSnoc(front, last);
        FirstCharsSnoc(front, last + [c]);
      }
    }
  }

  /** A name without a space gives its first character, and an empty name
      gives nothing; only a space separates words. */
  lemma InitialsOfOneWord(name: string)
    requires ' ' !in name
    ensures Initials(name) == (if name == [] then [] else [name[0]])
  {
    SplitOnWithout(name, ' ');
    assert [name][..0] == [];
  }
}
