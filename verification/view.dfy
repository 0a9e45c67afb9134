/**
  What the page shows for a fetched activity list: one card per activity,
  one row per participant (with a removal button only for an admin), the
  activity selector, and which of the signup form and the admin-only notice
  is visible. The view is a function of the activities and the admin flag
  alone.
 */
module View {
  import opened Wrappers
  import opened Roster

  /** A removal button and the data it carries: the activity position and the email. */
  datatype DeleteButton = DeleteButton(activityId: nat, email: string)

  datatype Row = Row(email: string, delete: Option<DeleteButton>)

  /** The participants section: a list of rows, or the "No participants yet" line. */
  datatype Participants = NoParticipantsYet | Listed(rows: seq<Row>)

  datatype Card = Card(
    name: string,
    description: string,
    schedule: string,
    spotsLeft: int,
    participants: Participants)

  /** An option of the activity selector: its value (none for the placeholder) and text. */
  datatype Choice = Choice(value: Option<nat>, text: string)

  const Placeholder := Choice(None, "-- Select an activity --")

  datatype Rendering = Rendering(cards: seq<Card>, choices: seq<Choice>, signupHidden: bool, noticeHidden: bool)

  /** The rows show the students in order, each with a button carrying (index, email) iff admin. */
  ghost predicate ShowsStudents(rows: seq<Row>, index: nat, students: seq<string>, isAdmin: bool) {
    && |rows| == |students|
    && forall j :: 0 <= j < |rows| ==>
         && rows[j].email == students[j]
         && (rows[j].delete.Some? <==> isAdmin)
         && (rows[j].delete.Some? ==> rows[j].delete.value == DeleteButton(index, students[j]))
  }

  /** The card shows activity `a`, found at position `index`. */
  ghost predicate Shows(c: Card, index: nat, a: Activity, isAdmin: bool) {
    && c.name == a.name
    && c.description == a.description
    && c.schedule == a.schedule
    && c.spotsLeft == a.maxParticipants - |a.students|
    && (c.participants.NoParticipantsYet? <==> a.students == [])
    && (c.participants.Listed? ==> ShowsStudents(c.participants.rows, index, a.students, isAdmin))
  }

  /** Every removal button anywhere on the cards is present iff the viewer is admin. */
  ghost predicate AffordancesMatch(cards: seq<Card>, isAdmin: bool) {
    forall i, j :: 0 <= i < |cards| && cards[i].participants.Listed? && 0 <= j < |cards[i].participants.rows| ==>
      (cards[i].participants.rows[j].delete.Some? <==> isAdmin)
  }

  ghost predicate HasAffordance(cards: seq<Card>) {
    exists i, j :: 0 <= i < |cards| && cards[i].participants.Listed? && 0 <= j < |cards[i].participants.rows| &&
      cards[i].participants.rows[j].delete.Some?
  }

  /** The participant rows of the activity at position `index`. */
  function Rows(index: nat, students: seq<string>, isAdmin: bool): (rows: seq<Row>)
    ensures ShowsStudents(rows, index, students, isAdmin)
  {
    if students == [] then []
    else
      var button := if isAdmin then Some(DeleteButton(index, students[0])) else None;
      [Row(students[0], button)] + Rows(index, students[1..], isAdmin)
  }

  function RenderCard(index: nat, a: Activity, isAdmin: bool): (c: Card)
    ensures Shows(c, index, a, isAdmin)
  {
    var participants := if |a.students| > 0 then Listed(Rows(index, a.students, isAdmin)) else NoParticipantsYet;
    Card(a.name, a.description, a.schedule, a.maxParticipants - |a.students|, participants)
  }

  /** The cards of `acts`, the first of which sits at position `from`. */
  function Cards(acts: seq<Activity>, from: nat, isAdmin: bool): (cards: seq<Card>)
    ensures |cards| == |acts|
    ensures forall i :: 0 <= i < |acts| ==> Shows(cards[i], from + i, acts[i], isAdmin)
  {
    if acts == [] then []
    else [RenderCard(from, acts[0], isAdmin)] + Cards(acts[1..], from + 1, isAdmin)
  }

  /** The selector options of `acts`, the first of which sits at position `from`. */
  function Choices(acts: seq<Activity>, from: nat): (choices: seq<Choice>)
    ensures |choices| == |acts|
    ensures forall i :: 0 <= i < |acts| ==> choices[i] == Choice(Some(from + i), acts[i].name)
  {
    if acts == [] then []
    else [Choice(Some(from), acts[0].name)] + Choices(acts[1..], from + 1)
  }

  /** The whole view after a successful fetch of `acts`. */
  function Render(acts: seq<Activity>, isAdmin: bool): (v: Rendering)
    ensures |v.cards| == |acts|
    ensures forall i :: 0 <= i < |acts| ==> Shows(v.cards[i], i, acts[i], isAdmin)
    ensures |v.choices| == |acts| + 1 && v.choices[0] == Placeholder
    ensures forall i :: 0 <= i < |acts| ==> v.choices[i + 1] == Choice(Some(i), acts[i].name)
    ensures v.signupHidden == !isAdmin && v.noticeHidden == isAdmin
  {
    Rendering(Cards(acts, 0, isAdmin), [Placeholder] + Choices(acts, 0), !isAdmin, isAdmin)
  }

  /** Removal buttons agree with the admin flag on every rendered row. */
  lemma RenderAffordancesMatch(acts: seq<Activity>, isAdmin: bool)
    ensures AffordancesMatch(Render(acts, isAdmin).cards, isAdmin)
  {
  }

  /** Some removal button is shown iff the viewer is admin and some activity has a participant. */
  lemma AffordancesIffAdmin(acts: seq<Activity>, isAdmin: bool)
    ensures HasAffordance(Render(acts, isAdmin).cards) <==>
            isAdmin && exists i :: 0 <= i < |acts| && acts[i].students != []
  {
    var cards := Render(acts, isAdmin).cards;
    RenderAffordancesMatch(acts, isAdmin);
    if isAdmin && exists i :: 0 <= i < |acts| && acts[i].students != [] {
      var i :| 0 <= i < |acts| && acts[i].students != [];
      assert Shows(cards[i], i, acts[i], isAdmin);
      assert cards[i].participants.rows[0].delete.Some?;
    }
    if HasAffordance(cards) {
      var i, j :| 0 <= i < |cards| && cards[i].participants.Listed? && 0 <= j < |cards[i].participants.rows| &&
        cards[i].participants.rows[j].delete.Some?;
      assert Shows(cards[i], i, acts[i], isAdmin);
    }
  }

  /**
    A removal button names the position of the card it sits on and one of
    that activity's students, so the unregister it requests, made against
    the same list, removes one entry.
   */
  lemma AffordanceTargetsShownStudent(acts: seq<Activity>, isAdmin: bool, i: nat, j: nat)
    requires i < |acts|
    requires Render(acts, isAdmin).cards[i].participants.Listed?
    requires j < |Render(acts, isAdmin).cards[i].participants.rows|
    requires Render(acts, isAdmin).cards[i].participants.rows[j].delete.Some?
    ensures var b := Render(acts, isAdmin).cards[i].participants.rows[j].delete.value;
      && b.activityId == i && b.email == acts[i].students[j]
      && |Withdrawn(acts[b.activityId].students, b.email)| == |acts[i].students| - 1
  {
  }

  /** One activity with two participants, viewed logged out: 8 spots, plain rows, form hidden. */
  lemma ChessClubLoggedOut()
    ensures var v := Render([Activity("Chess Club", "", "", 10, ["a@x.com", "b@x.com"])], false);
      && v.cards[0].spotsLeft == 8
      && v.cards[0].participants == Listed([Row("a@x.com", None), Row("b@x.com", None)])
      && v.signupHidden && !v.noticeHidden
  {
  }

  /** The same activity viewed as admin: each row carries its removal button, form visible. */
  lemma ChessClubAsAdmin()
    ensures var v := Render([Activity("Chess Club", "", "", 10, ["a@x.com", "b@x.com"])], true);
      && v.cards[0].spotsLeft == 8
      && v.cards[0].participants == Listed([Row("a@x.com", Some(DeleteButton(0, "a@x.com"))),
                                            Row("b@x.com", Some(DeleteButton(0, "b@x.com")))])
      && !v.signupHidden && v.noticeHidden
  {
  }
}
