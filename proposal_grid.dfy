/** The proposal grid of the governance app: the search box and the stage menu
    narrow the list of proposals fetched for one proposal type. */
module ProposalGrid {
  import opened Seqs

  /** A member of the `Status` enum, by its numeric value (a TypeScript numeric enum).
      The enum's declaration is not part of this model, so the value of its `All`
      member is a parameter (`all`) of the functions below. */
  type Status = nat

  datatype ProposalType = Nomination | Takedown

  datatype Application = Application(organizationName: string)

  datatype Proposal = Proposal(id: nat, proposalType: ProposalType, status: Status, application: Application)

  // ----- String.prototype.toLowerCase and String.prototype.includes -----

  /** Lower-casing of one character, restricted to ASCII letters. */
  function LowerChar(c: char): (d: char)
    ensures !('A' <= d <= 'Z')
    ensures 'a' <= c <= 'z' || !('A' <= c <= 'Z') ==> d == c
    ensures 'A' <= c <= 'Z' ==> 'a' <= d <= 'z' && d as int - c as int == 'a' as int - 'A' as int
  {
    if 'A' <= c <= 'Z' then (c as int - 'A' as int + 'a' as int) as char else c
  }

  function ToLowerCase(s: string): (r: string)
    ensures |r| == |s|
  {
    seq(|s|, i requires 0 <= i < |s| => LowerChar(s[i]))
  }

  lemma ToLowerCaseIdempotent(s: string)
    ensures ToLowerCase(ToLowerCase(s)) == ToLowerCase(s)
  {
  }

  /** `t` occurs in `s` starting at index `i`. */
  predicate OccursAt(s: string, t: string, i: nat)
  {
    i + |t| <= |s| && s[i..i + |t|] == t
  }

  /** `s.includes(t)`: `t` is a prefix of `s` or of one of its suffixes. */
  predicate Includes(s: string, t: string)
    decreases |s|
  {
    t <= s || (s != [] && Includes(s[1..], t))
  }

  /** `Includes` agrees with the positional reading: some occurrence of `t` exists in `s`. */
  lemma {:induction false} IncludesIffOccurs(s: string, t: string)
    ensures Includes(s, t) <==> exists i: nat :: OccursAt(s, t, i)
  {
    if t <= s {
      assert OccursAt(s, t, 0);
    } else if s == [] {
      assert forall i: nat :: !OccursAt(s, t, i);
    } else {
      IncludesIffOccurs(s[1..], t);
      if Includes(s[1..], t) {
        var j: nat :| OccursAt(s[1..], t, j);
        assert s[j + 1..j + 1 + |t|] == s[1..][j..j + |t|];
        assert OccursAt(s, t, j + 1);
      } else {
        forall i: nat | OccursAt(s, t, i) ensures false {
          assert i != 0;
          var k: nat := i - 1;
          assert s[1..][k..k + |t|] == s[k + 1..k + 1 + |t|];
          assert OccursAt(s[1..], t, k);
        }
      }
    }
  }

  /** Every string includes the empty string. */
  lemma IncludesEmpty(s: string)
    ensures Includes(s, "")
  {
  }

  // ----- The two chained filters -----

  /** First filter: the lower-cased organisation name contains the lower-cased search string. */
  predicate MatchesSearch(p: Proposal, searchFilter: string)
  {
    Includes(ToLowerCase(p.application.organizationName), ToLowerCase(searchFilter))
  }

  /** Second filter: the status is the selected one, or the selection is `All`. */
  predicate MatchesStatus(p: Proposal, statusFilter: Status, all: Status)
  {
    p.status == statusFilter || statusFilter == all
  }

  predicate Matches(p: Proposal, searchFilter: string, statusFilter: Status, all: Status)
  {
    MatchesSearch(p, searchFilter) && MatchesStatus(p, statusFilter, all)
  }

  /** The proposals the grid renders a card for, in the order they were fetched. */
  function VisibleProposals(proposals: seq<Proposal>, searchFilter: string, statusFilter: Status, all: Status)
    : (r: seq<Proposal>)
    ensures forall p :: p in r ==> p in proposals && Matches(p, searchFilter, statusFilter, all)
    ensures forall p :: p in proposals && Matches(p, searchFilter, statusFilter, all) ==> p in r
  {
    var search := (p: Proposal) => MatchesSearch(p, searchFilter);
    var status := (p: Proposal) => MatchesStatus(p, statusFilter, all);
    FilterMembership(search, proposals);
    FilterMembership(status, Filter(search, proposals));
    Filter(status, Filter(search, proposals))
  }

  /** The chain equals one filter by both conditions. */
  lemma VisibleIsOneFilter(proposals: seq<Proposal>, searchFilter: string, statusFilter: Status, all: Status)
    ensures VisibleProposals(proposals, searchFilter, statusFilter, all)
         == Filter((p: Proposal) => Matches(p, searchFilter, statusFilter, all), proposals)
  {
    FilterFuse((p: Proposal) => MatchesSearch(p, searchFilter),
               (p: Proposal) => MatchesStatus(p, statusFilter, all),
               (p: Proposal) => Matches(p, searchFilter, statusFilter, all),
               proposals);
  }

  /** The rendered list is the input with some proposals deleted and the order kept,
      and each matching proposal appears as often as in the input. */
  lemma VisibleIsOrderedSublist(proposals: seq<Proposal>, searchFilter: string, statusFilter: Status, all: Status)
    ensures IsSubsequence(VisibleProposals(proposals, searchFilter, statusFilter, all), proposals)
    ensures forall p :: multiset(VisibleProposals(proposals, searchFilter, statusFilter, all))[p]
                        == if Matches(p, searchFilter, statusFilter, all) then multiset(proposals)[p] else 0
  {
    var keep := (p: Proposal) => Matches(p, searchFilter, statusFilter, all);
    VisibleIsOneFilter(proposals, searchFilter, statusFilter, all);
    FilterIsSubsequence(keep, proposals);
    forall p ensures multiset(Filter(keep, proposals))[p] == if keep(p) then multiset(proposals)[p] else 0 {
      FilterCount(keep, proposals, p);
    }
  }

  /** An empty search string with the `All` stage shows every proposal, in order. */
  lemma VisibleShowsAll(proposals: seq<Proposal>, all: Status)
    ensures VisibleProposals(proposals, "", all, all) == proposals
  {
    var keep := (p: Proposal) => Matches(p, "", all, all);
    VisibleIsOneFilter(proposals, "", all, all);
    forall i | 0 <= i < |proposals| ensures keep(proposals[i]) {
      IncludesEmpty(ToLowerCase(proposals[i].application.organizationName));
    }
    FilterKeepsAll(keep, proposals);
  }

  /** Search is case-insensitive: search strings that lower-case alike show the same list. */
  lemma VisibleCaseInsensitive(proposals: seq<Proposal>, search1: string, search2: string, statusFilter: Status, all: Status)
    requires ToLowerCase(search1) == ToLowerCase(search2)
    ensures VisibleProposals(proposals, search1, statusFilter, all) == VisibleProposals(proposals, search2, statusFilter, all)
  {
    VisibleIsOneFilter(proposals, search1, statusFilter, all);
    VisibleIsOneFilter(proposals, search2, statusFilter, all);
    FilterCongruent((p: Proposal) => Matches(p, search1, statusFilter, all),
                    (p: Proposal) => Matches(p, search2, statusFilter, all), proposals);
  }

  /** Filtering the rendered list again with the same filters changes nothing. */
  lemma VisibleIdempotent(proposals: seq<Proposal>, searchFilter: string, statusFilter: Status, all: Status)
    ensures var shown := VisibleProposals(proposals, searchFilter, statusFilter, all);
            VisibleProposals(shown, searchFilter, statusFilter, all) == shown
  {
    var keep := (p: Proposal) => Matches(p, searchFilter, statusFilter, all);
    VisibleIsOneFilter(proposals, searchFilter, statusFilter, all);
    VisibleIsOneFilter(Filter(keep, proposals), searchFilter, statusFilter, all);
    FilterIdempotent(keep, proposals);
  }

  // ----- The filter state and the stage menu -----

  /** The grid's two pieces of filter state. */
  datatype Filters = Filters(searchFilter: string, statusFilter: Status)

  /** The state a fresh grid starts in: no search text and the `All` stage. */
  function InitialFilters(all: Status): (f: Filters)
    ensures forall proposals: seq<Proposal> {:trigger Render(proposals, f, all)} :: Render(proposals, f, all) == proposals
  {
    var f := Filters("", all);
    assert forall proposals: seq<Proposal> :: Render(proposals, f, all) == proposals by {
      forall proposals: seq<Proposal> ensures Render(proposals, f, all) == proposals {
        VisibleShowsAll(proposals, all);
      }
    }
    f
  }

  function Render(proposals: seq<Proposal>, f: Filters, all: Status): (shown: seq<Proposal>)
  {
    VisibleProposals(proposals, f.searchFilter, f.statusFilter, all)
  }

  /** Number of entries of the stage menu. */
  const StageMenuLength := 6

  /** The statuses the stage menu offers, one entry per index of a six-element array. */
  function StageMenu(): (menu: seq<Status>)
    ensures |menu| == StageMenuLength
    ensures forall k :: 0 <= k < |menu| ==> menu[k] == k
    ensures forall st: Status :: st in menu <==> st < StageMenuLength
  {
    var menu := seq(StageMenuLength, i requires 0 <= i < StageMenuLength => i as Status);
    forall st: Status | st < StageMenuLength ensures st in menu {
      assert menu[st] == st;
    }
    forall st: Status | st in menu ensures st < StageMenuLength {
      var k :| 0 <= k < |menu| && menu[k] == st;
    }
    menu
  }

  /** Typing in the search box replaces the search string and keeps the stage. */
  function TypeSearch(f: Filters, text: string): (g: Filters)
    ensures g.searchFilter == text && g.statusFilter == f.statusFilter
  {
    f.(searchFilter := text)
  }

  /** Picking entry `k` of the stage menu selects status `k` and keeps the search string. */
  function PickStage(f: Filters, k: nat): (g: Filters)
    requires k < |StageMenu()|
    ensures g.statusFilter == k && g.statusFilter in StageMenu()
    ensures g.searchFilter == f.searchFilter
  {
    f.(statusFilter := StageMenu()[k])
  }
}
