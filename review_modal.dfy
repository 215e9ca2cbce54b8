/**
 * The review dialog (client/components/ReviewModal.tsx): five stars set the
 * rating, and the form is handed to `onSubmit` only once a star was chosen.
 */
module ReviewModal {
  import opened Js
  import opened Options
  import BookingModel
  import ReviewModel
  import ReviewController

  /** One call of `onSubmit(bookingId, rating, comment)`. */
  datatype Submission = Submission(bookingId: BookingModel.Id, rating: int, comment: string)

  const NoRating := "Please select a rating."

  /** The stars the dialog renders. */
  const Stars: seq<int> := [1, 2, 3, 4, 5]

  /** Star `k` is drawn highlighted when `k <= rating`. */
  function Highlights(rating: int): (r: seq<bool>)
    ensures |r| == |Stars| && forall i :: 0 <= i < |Stars| ==> (r[i] <==> Stars[i] <= rating)
  {
    seq(|Stars|, i requires 0 <= i < |Stars| => Stars[i] <= rating)
  }

  /** The highlighted stars are the first `rating` ones. */
  lemma HighlightsPrefix(rating: int, i: nat)
    requires 0 <= rating <= 5 && i < 5
    ensures Highlights(rating)[i] <==> i < rating
  {
  }

  /** A rating the dialog submits is one the review schema accepts. */
  lemma SubmittedRatingAccepted(s: Submission)
    requires ReviewModel.MinRating <= s.rating <= ReviewModel.MaxRating
    ensures ReviewController.RatingOf(Given(Int(s.rating))) == Some(s.rating)
  {
  }

  class ReviewModal {
    const bookingId: BookingModel.Id
    var rating: int
    var comment: string
    var submissions: seq<Submission>
    var alerts: seq<string>

    /** The rating is 0 (none chosen) or a star, and only star ratings were ever submitted. */
    ghost predicate Valid()
      reads this
    {
      && 0 <= rating <= ReviewModel.MaxRating
      && forall i :: 0 <= i < |submissions| ==>
           submissions[i].bookingId == bookingId
           && ReviewModel.MinRating <= submissions[i].rating <= ReviewModel.MaxRating
    }

    constructor (bookingId: BookingModel.Id)
      ensures Valid()
      ensures this.bookingId == bookingId && rating == 0 && comment == "" && submissions == [] && alerts == []
    {
      this.bookingId := bookingId;
      rating, comment, submissions, alerts := 0, "", [], [];
    }

    /** A click on star `star`, one of the five rendered. */
    method ClickStar(star: int)
      requires Valid() && star in Stars
      modifies this`rating
      ensures Valid() && rating == star
    {
      rating := star;
    }

    method ChangeComment(text: string)
      modifies this`comment
      ensures comment == text
    {
      comment := text;
    }

    /** `handleSubmit`: without a rating, an alert and no submission. */
    method HandleSubmit()
      requires Valid()
      modifies this`submissions, this`alerts
      ensures Valid()
      ensures old(rating) == 0 ==> submissions == old(submissions) && alerts == old(alerts) + [NoRating]
      ensures old(rating) != 0 ==> submissions == old(submissions) + [Submission(bookingId, rating, comment)]
                                   && alerts == old(alerts)
    {
      if rating == 0 {
        alerts := alerts + [NoRating];
        return;
      }
      submissions := submissions + [Submission(bookingId, rating, comment)];
    }
  }
}
