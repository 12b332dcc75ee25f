/** Reviews (src/services/reviewService.ts): a participant of a project rates
    the other side once, and the rated user's average rating and rating count
    are recomputed from all reviews about them. */
module ReviewService {
  import opened Wrappers
  import opened Models
  import opened Ordering
  import opened Database

  /** The body of a review request. */
  datatype ReviewInput = ReviewInput(rating: int, comment: Option<string>)

  /** Whether `reviewerId` already reviewed the project. */
  predicate HasReviewed(m: map<Id, Review>, projectId: Id, reviewerId: Id) {
    exists k :: k in m && m[k].projectId == projectId && m[k].reviewerId == reviewerId
  }

  /** At most one review per project and reviewer. */
  predicate UniqueReviews(m: map<Id, Review>) {
    forall i, j :: (i in m && j in m && m[i].projectId == m[j].projectId
                    && m[i].reviewerId == m[j].reviewerId) ==> i == j
  }

  /** The reviews about one user. */
  function ReviewsAbout(m: map<Id, Review>, userId: Id): (r: map<Id, Review>)
    ensures forall k :: k in r <==> k in m && m[k].revieweeId == userId
    ensures forall k :: k in r ==> r[k] == m[k]
  {
    map k | k in m && m[k].revieweeId == userId :: m[k]
  }

  function Stars(r: Review): real { r.rating as real }

  /** `AVG(rating)` and `COUNT(*)` over the reviews about a user. */
  function AverageRating(m: map<Id, Review>, userId: Id): (avg: Option<real>)
    ensures avg.None? <==> ReviewsAbout(m, userId) == map[]
  {
    var about := ReviewsAbout(m, userId);
    if about == map[] then None else Some(SumOf(about, Stars) / |about| as real)
  }

  /** With every rating between 1 and 5 (as the review schema demands), the
      average is between 1 and 5 too. */
  lemma AverageWithinStars(m: map<Id, Review>, userId: Id)
    requires forall k :: k in m ==> 1 <= m[k].rating <= 5
    requires AverageRating(m, userId).Some?
    ensures 1.0 <= AverageRating(m, userId).value <= 5.0
  {
    var about := ReviewsAbout(m, userId);
    SumOfBounds(about, Stars, 1.0, 5.0);
    TimesIsProduct(1.0, |about|);
    TimesIsProduct(5.0, |about|);
    MeanBetween(SumOf(about, Stars), |about| as real, 1.0, 5.0);
  }

  lemma MeanBetween(total: real, n: real, lo: real, hi: real)
    requires n > 0.0 && lo * n <= total <= hi * n
    ensures lo <= total / n <= hi
  {
    var q := total / n;
    assert q * n == total;
    assert (q - lo) * n == total - lo * n;
    assert (hi - q) * n == hi * n - total;
  }

  /** A new review about a user adds its rating to their sum of ratings and
      one to their count. */
  lemma NewReviewAddsToAverage(m: map<Id, Review>, id: Id, r: Review)
    requires id !in m
    ensures var before := ReviewsAbout(m, r.revieweeId);
      var after := ReviewsAbout(m[id := r], r.revieweeId);
      && |after| == |before| + 1
      && SumOf(after, Stars) == SumOf(before, Stars) + r.rating as real
  {
    var before := ReviewsAbout(m, r.revieweeId);
    var after := ReviewsAbout(m[id := r], r.revieweeId);
    assert after == before[id := r];
    assert after - {id} == before;
    SumOfRemove(after, Stars, id);
  }

  /** updateUserRating: the user's rating becomes the average of the reviews
      about them and `total_ratings` their number. An unknown user id updates
      nothing. */
  function RateUser(users: map<Id, User>, reviews: map<Id, Review>, userId: Id): (r: map<Id, User>)
    ensures r.Keys == users.Keys
    ensures userId in users ==>
      r[userId] == users[userId].(rating := AverageRating(reviews, userId),
                                  totalRatings := |ReviewsAbout(reviews, userId)|)
    ensures forall k :: k in users && k != userId ==> r[k] == users[k]
  {
    if userId !in users then users
    else users[userId := users[userId].(rating := AverageRating(reviews, userId),
                                        totalRatings := |ReviewsAbout(reviews, userId)|)]
  }

  /** createReview. The reviewee is the counterpart of the reviewer, so a
      reviewer who is not the project's student rates the student. */
  function CreateReviewOutcome(s: Store, projectId: Id, reviewerId: Id, input: ReviewInput, now: Time)
    : (o: Outcome<(Id, Review)>)
    requires s.Valid()
    ensures o.after.Valid()
  {
    if projectId !in s.projects then Fail(s, "Project not found", 404)
    else
      var p := s.projects[projectId];
      var reviewee := Counterpart(p, AcceptedDeveloper(s, p), reviewerId);
      if !PresentId(reviewee) then Fail(s, "No active developer for this project", 400)
      else if HasReviewed(s.reviews, projectId, reviewerId) then Fail(s, "You have already reviewed this project", 400)
      else
        var id := Fresh(s);
        var r := Review(projectId, reviewerId, reviewee.value, input.rating, TextOrNull(input.comment), now);
        var reviews := s.reviews[id := r];
        Outcome(Ok((id, r)), s.(reviews := reviews, users := RateUser(s.users, reviews, reviewee.value),
                                nextId := id + 1))
  }

  /** The checks of createReview, in order. */
  lemma CreateReviewGuards(s: Store, projectId: Id, reviewerId: Id, input: ReviewInput, now: Time)
    requires s.Valid()
    ensures var o := CreateReviewOutcome(s, projectId, reviewerId, input, now);
      && (projectId !in s.projects ==> o.result == Err(AppError("Project not found", 404)))
      && (projectId in s.projects
          && !PresentId(Counterpart(s.projects[projectId], AcceptedDeveloper(s, s.projects[projectId]), reviewerId)) ==>
            o.result == Err(AppError("No active developer for this project", 400)))
      && (projectId in s.projects && reviewerId == s.projects[projectId].studentId
          && AcceptedDeveloper(s, s.projects[projectId]).None? ==>
            o.result == Err(AppError("No active developer for this project", 400)))
      && (projectId in s.projects && HasReviewed(s.reviews, projectId, reviewerId) ==> o.result.Err?)
      && (projectId in s.projects && HasReviewed(s.reviews, projectId, reviewerId)
          && PresentId(Counterpart(s.projects[projectId], AcceptedDeveloper(s, s.projects[projectId]), reviewerId)) ==>
            o.result == Err(AppError("You have already reviewed this project", 400)))
      && (projectId in s.projects && !HasReviewed(s.reviews, projectId, reviewerId)
          && PresentId(Counterpart(s.projects[projectId], AcceptedDeveloper(s, s.projects[projectId]), reviewerId)) ==>
            o.result.Ok?)
      && (o.result.Err? ==> o.after == s)
  {
  }

  /** A successful review rates the counterpart of the reviewer, and the
      counterpart's rating and count then cover every review about them,
      this one included. */
  lemma CreateReviewEffect(s: Store, projectId: Id, reviewerId: Id, input: ReviewInput, now: Time)
    requires s.Valid()
    ensures var o := CreateReviewOutcome(s, projectId, reviewerId, input, now);
      o.result.Ok? ==> var (id, r) := o.result.value;
        && projectId in s.projects && !HasReviewed(s.reviews, projectId, reviewerId)
        && id !in s.reviews && o.after.reviews == s.reviews[id := r]
        && r.projectId == projectId && r.reviewerId == reviewerId && r.rating == input.rating
        && r.comment == TextOrNull(input.comment) && r.createdAt == now
        && o.after.users == RateUser(s.users, o.after.reviews, r.revieweeId)
        && o.after.projects == s.projects && o.after.proposals == s.proposals
        && o.after.payments == s.payments && o.after.messages == s.messages
        && o.after.notifications == s.notifications && o.after.otps == s.otps
        && o.after.disputes == s.disputes
        && (reviewerId == s.projects[projectId].studentId ==>
              Some(r.revieweeId) == AcceptedDeveloper(s, s.projects[projectId]))
        && (reviewerId != s.projects[projectId].studentId ==> r.revieweeId == s.projects[projectId].studentId)
        && (r.revieweeId in s.users ==>
              && o.after.users[r.revieweeId].rating == AverageRating(o.after.reviews, r.revieweeId)
              && o.after.users[r.revieweeId].totalRatings == |ReviewsAbout(s.reviews, r.revieweeId)| + 1)
  {
    var o := CreateReviewOutcome(s, projectId, reviewerId, input, now);
    if o.result.Ok? {
      var (id, r) := o.result.value;
      NewReviewAddsToAverage(s.reviews, id, r);
    }
  }

  /** createReview keeps reviews unique per project and reviewer. */
  lemma CreateReviewKeepsUniqueReviews(s: Store, projectId: Id, reviewerId: Id, input: ReviewInput, now: Time)
    requires s.Valid() && UniqueReviews(s.reviews)
    ensures UniqueReviews(CreateReviewOutcome(s, projectId, reviewerId, input, now).after.reviews)
  {
    var o := CreateReviewOutcome(s, projectId, reviewerId, input, now);
    CreateReviewGuards(s, projectId, reviewerId, input, now);
    CreateReviewEffect(s, projectId, reviewerId, input, now);
    if o.result.Ok? {
      AddReviewKeepsUnique(s.reviews, o.result.value.0, o.result.value.1);
    }
  }

  /** Inserting a review under a new key keeps reviews unique when its reviewer
      has not reviewed its project yet. */
  lemma AddReviewKeepsUnique(m: map<Id, Review>, id: Id, r: Review)
    requires UniqueReviews(m) && id !in m && !HasReviewed(m, r.projectId, r.reviewerId)
    ensures UniqueReviews(m[id := r])
  {
  }

  class ReviewServiceImpl {
    const db: Db

    constructor (db: Db)
      ensures this.db == db
    {
      this.db := db;
    }

    method CreateReview(projectId: Id, reviewerId: Id, input: ReviewInput, now: Time)
      returns (r: Result<(Id, Review)>)
      requires db.Valid()
      modifies db
      ensures var o := CreateReviewOutcome(old(db.State()), projectId, reviewerId, input, now);
        r == o.result && db.State() == o.after
      ensures db.Valid()
    {
      if projectId !in db.projects {
        return Err(AppError("Project not found", 404));
      }
      var p := db.projects[projectId];
      var reviewee := Counterpart(p, AcceptedDeveloper(db.State(), p), reviewerId);
      if !PresentId(reviewee) {
        return Err(AppError("No active developer for this project", 400));
      }
      if HasReviewed(db.reviews, projectId, reviewerId) {
        return Err(AppError("You have already reviewed this project", 400));
      }
      var id := db.NewId();
      var review := Review(projectId, reviewerId, reviewee.value, input.rating, TextOrNull(input.comment), now);
      db.reviews := db.reviews[id := review];
      UpdateUserRating(reviewee.value);
      r := Ok((id, review));
    }

    /** `UPDATE users SET rating = AVG, total_ratings = COUNT WHERE id = $3`. */
    method UpdateUserRating(userId: Id)
      requires db.Valid()
      modifies db`users
      ensures db.users == RateUser(old(db.users), db.reviews, userId)
      ensures db.Valid()
    {
      db.users := RateUser(db.users, db.reviews, userId);
    }
  }
}
