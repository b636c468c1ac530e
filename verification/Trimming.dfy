/** Texts without the white space around them, for whatever counts as white space. */
module Trimming {

  function TrimLeft(space: char -> bool, s: string): string {
    if s != "" && space(s[0]) then TrimLeft(space, s[1..]) else s
  }

  function TrimRight(space: char -> bool, s: string): string {
    if s != "" && space(s[|s| - 1]) then TrimRight(space, s[..|s| - 1]) else s
  }

  function TrimSpace(space: char -> bool, s: string): string {
    TrimRight(space, TrimLeft(space, s))
  }

  predicate Trimmed(space: char -> bool, s: string) {
    s != "" ==> !space(s[0]) && !space(s[|s| - 1])
  }

  lemma {:induction false} TrimRightTrims(space: char -> bool, s: string)
    requires s != "" ==> !space(s[0])
    ensures Trimmed(space, TrimRight(space, s))
    decreases |s|
  {
    if s != "" && space(s[|s| - 1]) {
      TrimRightTrims(space, s[..|s| - 1]);
    }
  }

  lemma {:induction false} TrimLeftTrims(space: char -> bool, s: string)
    ensures TrimLeft(space, s) != "" ==> !space(TrimLeft(space, s)[0])
    decreases |s|
  {
    if s != "" && space(s[0]) {
      TrimLeftTrims(space, s[1..]);
    }
  }

  lemma TrimSpaceTrims(space: char -> bool, s: string)
    ensures Trimmed(space, TrimSpace(space, s))
    ensures Trimmed(space, s) ==> TrimSpace(space, s) == s
  {
    TrimLeftTrims(space, s);
    TrimRightTrims(space, TrimLeft(space, s));
  }
}
