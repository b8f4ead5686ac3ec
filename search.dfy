/**
 * The dashboard's client-side search: a user is listed when the search
 * term occurs in its name or email, ignoring the case of letters, or in
 * its phone number exactly as typed.
 */
module UserSearch {

  import opened Wrappers
  import opened Seqs
  import opened Text
  import opened Users

  /** `field?.toLowerCase().includes(term.toLowerCase())`: false for an absent field. */
  predicate FoldedContains(field: Option<string>, term: string)
  {
    field.Some? && Includes(Lower(field.value), Lower(term))
  }

  /** `field?.includes(term)`: false for an absent field. */
  predicate ExactContains(field: Option<string>, term: string)
  {
    field.Some? && Includes(field.value, term)
  }

  /** The search predicate `filter` applies to each user. */
  function Matches(u: User, term: string): (b: bool)
    ensures b <==>
      (u.name.Some? && exists i :: OccursAt(Lower(u.name.value), Lower(term), i)) ||
      (u.email.Some? && exists i :: OccursAt(Lower(u.email.value), Lower(term), i)) ||
      (u.phone.Some? && exists i :: OccursAt(u.phone.value, term, i))
  {
    FoldedContains(u.name, term) || FoldedContains(u.email, term) || ExactContains(u.phone, term)
  }

  /** The users listed for a search term. */
  function FilterUsers(users: seq<User>, term: string): (r: seq<User>)
    ensures |r| <= |users| && IsSubsequence(r, users)
    ensures forall i :: 0 <= i < |r| ==> Matches(r[i], term)
    ensures forall i :: 0 <= i < |users| && Matches(users[i], term) ==> users[i] in r
    ensures forall u :: multiset(r)[u] == if Matches(u, term) then multiset(users)[u] else 0
  {
    Filter(users, u => Matches(u, term))
  }

  /** At least one of name, email and phone is present. */
  predicate HasSearchableField(u: User)
  {
    u.name.Some? || u.email.Some? || u.phone.Some?
  }

  /**
   * The empty term lists exactly the users that have a name, an email or a
   * phone, present even if empty: `"".includes("")` holds, an absent field
   * does not match.
   */
  lemma {:induction false} EmptyTermKeepsSearchable(users: seq<User>)
    ensures FilterUsers(users, "") == Filter(users, HasSearchableField)
  {
    if users != [] {
      var u := users[0];
      if u.name.Some? { IncludesEmpty(Lower(u.name.value)); }
      if u.email.Some? { IncludesEmpty(Lower(u.email.value)); }
      if u.phone.Some? { IncludesEmpty(u.phone.value); }
      assert Matches(u, "") == HasSearchableField(u);
      EmptyTermKeepsSearchable(users[1..]);
    }
  }

  /** The case of the letters typed does not matter for name and email; it does for the phone. */
  lemma TermCaseIgnoredForNameAndEmail(u: User, term: string)
    requires u.phone.None?
    ensures Matches(u, term) == Matches(u, Lower(term))
  {
    LowerIdempotent(term);
  }

  /** A longer term never lists a user that a shorter part of it did not. */
  lemma NarrowingTerm(u: User, prefix: string, term: string)
    requires StartsWith(term, prefix) && Matches(u, term)
    ensures Matches(u, prefix)
  {
    if FoldedContains(u.name, term) {
      OccurrenceOfPrefix(Lower(u.name.value), Lower(term), Lower(prefix));
    } else if FoldedContains(u.email, term) {
      OccurrenceOfPrefix(Lower(u.email.value), Lower(term), Lower(prefix));
    } else {
      OccurrenceOfPrefix(u.phone.value, term, prefix);
    }
  }

  lemma OccurrenceOfPrefix(hay: string, term: string, prefix: string)
    requires StartsWith(term, prefix) && Includes(hay, term)
    ensures Includes(hay, prefix)
  {
    var i :| OccursAt(hay, term, i);
    assert hay[i..i + |prefix|] == hay[i..i + |term|][..|prefix|];
    assert OccursAt(hay, prefix, i);
  }
}
