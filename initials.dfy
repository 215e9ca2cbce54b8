/**
 * The avatar initials shared by the profile page, the sidebar and the mentor
 * card: `name.split(" ").map((n) => n[0]).join("").toUpperCase()`.
 */
module Initials {
  import opened Js

  /**
   * `pieces.map((n) => n[0]).join("")`: `n[0]` of an empty piece is
   * `undefined`, which `join` writes as nothing.
   */
  function FirstChars(pieces: seq<string>): string {
    if pieces == [] then "" else (if pieces[0] == "" then "" else [pieces[0][0]]) + FirstChars(pieces[1..])
  }

  /** The initials of a name, as the mentor card computes them (no fallback). */
  function InitialsOf(name: string): string {
    ToUpperCase(FirstChars(Split(name, ' ')))
  }

  /** `getInitials(name = "")` of the profile page and the sidebar: `"?"` for a falsy name. */
  function GetInitials(name: Field<string>): string {
    if StringTruthy(name) then InitialsOf(name.value) else "?"
  }

  /**
   * An independent reading of the same thing: scanning left to right, the
   * characters that are not spaces and start the text or follow a space.
   */
  function WordStarts(s: string, atStart: bool): string {
    if s == [] then ""
    else if s[0] == ' ' then WordStarts(s[1..], true)
    else (if atStart then [s[0]] else "") + WordStarts(s[1..], false)
  }

  /** Splitting on spaces and taking the first character of each piece picks out the word starts. */
  lemma {:induction false} FirstCharsAreWordStarts(s: string)
    ensures FirstChars(Split(s, ' ')) == WordStarts(s, true)
    ensures FirstChars(Split(s, ' ')[1..]) == WordStarts(s, false)
  {
    if s != [] {
      FirstCharsAreWordStarts(s[1..]);
      var rest := Split(s[1..], ' ');
      if s[0] == ' ' {
        assert Split(s, ' ') == [""] + rest;
        assert ([""] + rest)[1..] == rest;
      } else {
        var first := [s[0]] + rest[0];
        assert Split(s, ' ') == [first] + rest[1..];
        assert ([first] + rest[1..])[1..] == rest[1..];
        assert first[0] == s[0];
      }
    }
  }

  /** No word starts at all exactly when the text is nothing but spaces. */
  lemma {:induction false} WordStartsEmpty(s: string)
    ensures WordStarts(s, true) == "" <==> forall i :: 0 <= i < |s| ==> s[i] == ' '
  {
    if s != [] {
      WordStartsEmpty(s[1..]);
      assert forall i :: 1 <= i < |s| ==> s[i] == s[1..][i - 1];
    }
  }

  /**
   * `getInitials` is `"?"` for an absent, null or empty name; otherwise it
   * is the uppercased word starts, which are empty only for a name made of
   * spaces.
   */
  lemma GetInitialsMeaning(name: Field<string>)
    ensures !StringTruthy(name) ==> GetInitials(name) == "?"
    ensures StringTruthy(name) ==> GetInitials(name) == ToUpperCase(WordStarts(name.value, true))
    ensures StringTruthy(name) ==>
              (GetInitials(name) == "" <==> forall i :: 0 <= i < |name.value| ==> name.value[i] == ' ')
  {
    if StringTruthy(name) {
      FirstCharsAreWordStarts(name.value);
      WordStartsEmpty(name.value);
      var w := WordStarts(name.value, true);
      if w != "" {
        assert |ToUpperCase(w)| == |w|;
      }
    }
  }
}
