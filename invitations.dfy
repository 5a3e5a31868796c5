/** The search and the labels of `components/dashboard/Tables/InvitationsTable.tsx`. */
module Invitations {
  import opened Strings
  import opened Seqs

  /** An invitation row: `status` is true once the invitation was accepted. */
  datatype Invitation = Invitation(id: string, email: string, status: bool, createdAt: string)

  /** `invitation.email.toLowerCase().includes(searchQuery.toLowerCase())`. */
  predicate Matches(query: string, invitation: Invitation)
  {
    Contains(Lower(invitation.email), Lower(query))
  }

  /** The search predicate for one query, as the `filter` callback. */
  function MatchesQuery(query: string): Invitation -> bool
  {
    invitation => Matches(query, invitation)
  }

  /** `filteredInvitations`: the invitations whose address contains the
      query, ignoring case, in their original order. */
  function Shown(invitations: seq<Invitation>, query: string): (r: seq<Invitation>)
    ensures forall x :: x in r <==> x in invitations && Matches(query, x)
    ensures forall x :: multiset(r)[x] == if Matches(query, x) then multiset(invitations)[x] else 0
  {
    var r := Filter(invitations, MatchesQuery(query));
    FilterMultiset(invitations, MatchesQuery(query));
    assert forall x :: x in r ==> Matches(query, x) by {
      forall x | x in r ensures Matches(query, x) {
        var i :| 0 <= i < |r| && r[i] == x;
      }
    }
    r
  }

  /** The list is the input with some rows left out, never reordered. */
  lemma ShownKeepsOrder(invitations: seq<Invitation>, query: string)
    ensures SubsequenceOf(Shown(invitations, query), invitations)
  {
    FilterIsSubsequence(invitations, MatchesQuery(query));
  }

  /** An empty search box shows every invitation. */
  lemma EmptyQueryShowsAll(invitations: seq<Invitation>)
    ensures Shown(invitations, "") == invitations
  {
    forall x | x in invitations ensures Matches("", x) {
      ContainsEmpty(Lower(x.email));
    }
    FilterAll(invitations, MatchesQuery(""));
  }

  /** Typing more narrows the list: a row that matches a longer query also
      matches any part of it. */
  lemma LongerQueryNarrows(invitations: seq<Invitation>, shorter: string, longer: string)
    requires Contains(Lower(longer), Lower(shorter))
    ensures forall x :: x in Shown(invitations, longer) ==> x in Shown(invitations, shorter)
  {
    forall x | x in Shown(invitations, longer) ensures Matches(shorter, x) {
      ContainsTransitive(Lower(x.email), Lower(longer), Lower(shorter));
    }
  }

  /** What the table body shows while the invitations load, then: one row
      per shown invitation, with its address, status badge and date, or a
      single message row. */
  datatype Body = Spinner | Rows(rows: seq<(string, string, string)>) | Message(text: string)

  /** The status badge: "Success" for an accepted invitation, "Pending" otherwise. */
  function StatusLabel(status: bool): (r: string)
    ensures r == "Success" <==> status
    ensures r == "Pending" <==> !status
  {
    if status then "Success" else "Pending"
  }

  /** The table for the current search; `formatDate` stands for
      `format(createdAt, "MMM d, yyyy")` of date-fns. */
  function TableBody(isLoading: bool, invitations: seq<Invitation>, query: string,
                     formatDate: string -> string): (b: Body)
    ensures b.Spinner? <==> isLoading
    ensures b.Message? <==> !isLoading && Shown(invitations, query) == []
    ensures b.Message? ==> (b.text == "No invitations found matching your search" <==> query != "")
    ensures b.Message? ==> (b.text == "No invitations found" <==> query == "")
    ensures b.Rows? ==> |b.rows| == |Shown(invitations, query)|
    ensures b.Rows? ==> forall i :: 0 <= i < |b.rows| ==>
      var x := Shown(invitations, query)[i];
      && b.rows[i].0 == x.email
      && b.rows[i].1 == (if x.status then "Success" else "Pending")
      && b.rows[i].2 == formatDate(x.createdAt)
  {
    var shown := Shown(invitations, query);
    if isLoading then Spinner
    else if |shown| > 0 then
      var rows := seq(|shown|, i requires 0 <= i < |shown| =>
        (shown[i].email, StatusLabel(shown[i].status), formatDate(shown[i].createdAt)));
      assert forall i :: 0 <= i < |rows| ==> rows[i].1 == StatusLabel(shown[i].status);
      Rows(rows)
    else if query != "" then Message("No invitations found matching your search")
    else Message("No invitations found")
  }
}
