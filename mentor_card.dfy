/** The mentor card of the search results (client/components/MentorCard.tsx). */
module MentorCard {
  import opened Js
  import Seqs
  import Initials
  import Views

  /** The card's props; `expertise` is read through a truthiness test, so it may be missing. */
  datatype Mentor = Mentor(id: string, name: string, email: string, expertise: Field<seq<string>>)

  const NoExpertise := "No expertise listed."

  function FromSummary(m: Views.MentorSummary): Mentor {
    Mentor(m.id, m.name, m.email, Given(m.expertise))
  }

  /** The link target of the whole card. */
  function Href(m: Mentor): string {
    "/dashboard/mentor/" + m.id
  }

  /** The avatar text: the initials, with no `"?"` fallback. */
  function CardInitials(m: Mentor): string {
    Initials.InitialsOf(m.name)
  }

  /** Whether the card shows the "No expertise listed." line instead of badges. */
  predicate ShowsNoExpertise(m: Mentor) {
    !(m.expertise.Given? && |m.expertise.value| > 0)
  }

  /** The expertise badges: `expertise.slice(0, 3)` when there is some. */
  function Badges(m: Mentor): seq<string> {
    if ShowsNoExpertise(m) then [] else Seqs.Take(m.expertise.value, 3)
  }

  /**
   * At most the first three skills are shown, in order; all of them when
   * there are fewer; and the fallback line shows exactly when there is nothing to show.
   */
  lemma BadgesFirstThree(m: Mentor)
    ensures |Badges(m)| <= 3
    ensures ShowsNoExpertise(m) <==> Badges(m) == []
    ensures m.expertise.Given? ==> Badges(m) == m.expertise.value[..|Badges(m)|]
    ensures m.expertise.Given? && |m.expertise.value| <= 3 ==> Badges(m) == m.expertise.value
    ensures m.expertise.Given? && |m.expertise.value| >= 3 ==> |Badges(m)| == 3
  {
  }

  /** A card's link leads to the mentor it shows: the id is the text after the route prefix. */
  lemma HrefNamesMentor(m: Mentor)
    ensures |Href(m)| == |"/dashboard/mentor/"| + |m.id|
    ensures Href(m)[|"/dashboard/mentor/"|..] == m.id
  {
  }

  /**
   * The card's avatar text is the uppercased first letter of every word of
   * the name; having no `"?"` fallback, it differs from the sidebar's
   * initials exactly for the empty name.
   */
  lemma CardInitialsNoFallback(m: Mentor)
    ensures CardInitials(m) == ToUpperCase(Initials.WordStarts(m.name, true))
    ensures CardInitials(m) != Initials.GetInitials(Given(m.name)) <==> m.name == ""
    ensures m.name == "" ==> CardInitials(m) == "" && Initials.GetInitials(Given(m.name)) == "?"
  {
    Initials.FirstCharsAreWordStarts(m.name);
  }
}
