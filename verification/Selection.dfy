/** Budgeted greedy choice of context files (src/context.rs). */
module Selection {
  import opened Machine
  import opened Orders

  const MAX_OMISSION_DETAILS := 10

  /** `score` is the rank of the f64 score under total_cmp. */
  datatype Candidate = Candidate(priority: nat, score: int, tokens: usize, path: Path)

  datatype Limits = Limits(maxFiles: usize, budget: usize)

  datatype Reason = FileLimitReached | ExceedsTotalBudget | DoesNotFitRemaining

  datatype Omission = Omission(candidate: Candidate, reason: Reason)

  datatype Selection = Selection(
    selectedTokens: usize,
    selected: seq<Candidate>,
    outlineOnly: seq<Omission>,
    omitted: seq<Omission>,
    omittedFiles: usize,
    omittedTokens: usize)

  const EMPTY := Selection(0, [], [], [], 0, 0)

  predicate RankLe(a: Candidate, b: Candidate) {
    if a.priority != b.priority then a.priority > b.priority
    else if a.score != b.score then a.score > b.score
    else if a.tokens != b.tokens then a.tokens < b.tokens
    else PathLe(a.path, b.path)
  }

  lemma RankOrder()
    ensures TotalPreorder(RankLe)
  {
    PathOrder();
  }

  function OmissionReason(c: Candidate, sel: Selection, limits: Limits): Option<Reason> {
    if |sel.selected| >= limits.maxFiles then Some(FileLimitReached)
    else if c.tokens > limits.budget then Some(ExceedsTotalBudget)
    else if SaturatingAdd(sel.selectedTokens, c.tokens) > limits.budget then Some(DoesNotFitRemaining)
    else None
  }

  /** The effect of offering one candidate to the running selection. */
  function Offer(sel: Selection, c: Candidate, limits: Limits, seeds: set<Path>): Selection {
    match OmissionReason(c, sel, limits)
    case None =>
      sel.(selectedTokens := SaturatingAdd(sel.selectedTokens, c.tokens), selected := sel.selected + [c])
    case Some(reason) =>
      sel.(omittedFiles := SaturatingAdd(sel.omittedFiles, 1),
           omittedTokens := SaturatingAdd(sel.omittedTokens, c.tokens),
           outlineOnly := if c.path in seeds then sel.outlineOnly + [Omission(c, reason)] else sel.outlineOnly,
           omitted := if |sel.omitted| < MAX_OMISSION_DETAILS then sel.omitted + [Omission(c, reason)] else sel.omitted)
  }

  function Greedy(cs: seq<Candidate>, limits: Limits, seeds: set<Path>): Selection {
    if cs == [] then EMPTY
    else Offer(Greedy(cs[..|cs| - 1], limits, seeds), cs[|cs| - 1], limits, seeds)
  }

  method SelectCandidates(candidates: seq<Candidate>, limits: Limits, seeds: set<Path>)
    returns (candidateFiles: nat, selection: Selection)
    ensures candidateFiles == |candidates|
    ensures selection == Greedy(Sort(candidates, RankLe), limits, seeds)
  {
    hide RankLe, Sort, SaturatingAdd;
    var ranked := Sort(candidates, RankLe);
    SortPermutes(candidates, RankLe);
    candidateFiles := |ranked|;
    selection := EMPTY;
    for k := 0 to |ranked|
      invariant selection == Greedy(ranked[..k], limits, seeds)
    {
      assert ranked[..k + 1][..k] == ranked[..k];
      var c := ranked[k];
      var reason := OmissionReason(c, selection, limits);
      if reason.Some? {
        selection := selection.(omittedFiles := SaturatingAdd(selection.omittedFiles, 1),
                                omittedTokens := SaturatingAdd(selection.omittedTokens, c.tokens));
        if c.path in seeds {
          selection := selection.(outlineOnly := selection.outlineOnly + [Omission(c, reason.value)]);
        }
        if |selection.omitted| < MAX_OMISSION_DETAILS {
          selection := selection.(omitted := selection.omitted + [Omission(c, reason.value)]);
        }
      } else {
        selection := selection.(selectedTokens := SaturatingAdd(selection.selectedTokens, c.tokens),
                                selected := selection.selected + [c]);
      }
    }
    assert ranked[..|ranked|] == ranked;
  }

  // ---------- Conservation and limits ----------

  function TokenSum(cs: seq<Candidate>): nat {
    if cs == [] then 0 else TokenSum(cs[..|cs| - 1]) + cs[|cs| - 1].tokens
  }

  /** Everything the greedy run turned away, with the reason at that moment, in ranked order. */
  function Rejected(cs: seq<Candidate>, limits: Limits): seq<Omission> {
    if cs == [] then []
    else
      var front := cs[..|cs| - 1];
      var c := cs[|cs| - 1];
      var reason := OmissionReason(c, Greedy(front, limits, {}), limits);
      if reason.Some? then Rejected(front, limits) + [Omission(c, reason.value)] else Rejected(front, limits)
  }

  function CandidatesOf(os: seq<Omission>): seq<Candidate> {
    seq(|os|, i requires 0 <= i < |os| => os[i].candidate)
  }

  function SeedsOnly(os: seq<Omission>, seeds: set<Path>): seq<Omission> {
    if os == [] then []
    else
      var rest := SeedsOnly(os[..|os| - 1], seeds);
      if os[|os| - 1].candidate.path in seeds then rest + [os[|os| - 1]] else rest
  }

  lemma CandidatesOfAppend(os: seq<Omission>, o: Omission)
    ensures CandidatesOf(os + [o]) == CandidatesOf(os) + [o.candidate]
  {
  }

  lemma TokenSumAppend(cs: seq<Candidate>, c: Candidate)
    ensures TokenSum(cs + [c]) == TokenSum(cs) + c.tokens
  {
    assert (cs + [c])[..|cs|] == cs;
  }

  lemma SeedsOnlyAppend(os: seq<Omission>, o: Omission, seeds: set<Path>)
    ensures SeedsOnly(os + [o], seeds) == SeedsOnly(os, seeds) + if o.candidate.path in seeds then [o] else []
  {
    assert (os + [o])[..|os|] == os;
  }

  /** The seed set only decides which rejections are also outlined. */
  lemma {:induction false} SeedsDoNotChoose(cs: seq<Candidate>, limits: Limits, seeds: set<Path>)
    ensures var a, b := Greedy(cs, limits, seeds), Greedy(cs, limits, {});
            a.selected == b.selected && a.selectedTokens == b.selectedTokens
  {
    if cs != [] {
      SeedsDoNotChoose(cs[..|cs| - 1], limits, seeds);
    }
  }

  lemma SeedsDoNotDecide(cs: seq<Candidate>, c: Candidate, limits: Limits, seeds: set<Path>)
    ensures OmissionReason(c, Greedy(cs, limits, seeds), limits) == OmissionReason(c, Greedy(cs, limits, {}), limits)
  {
    SeedsDoNotChoose(cs, limits, seeds);
  }

  lemma NoCandidates()
    ensures CandidatesOf([]) == []
  {
  }

  lemma SplitGrows<T>(a: seq<T>, b: seq<T>, all: seq<T>, c: T)
    requires multiset(a) + multiset(b) == multiset(all)
    ensures multiset(a + [c]) + multiset(b) == multiset(all + [c])
    ensures multiset(a) + multiset(b + [c]) == multiset(all + [c])
  {
  }

  /** Every candidate is either selected or rejected, never both, never neither. */
  lemma {:induction false} CandidatesConserved(cs: seq<Candidate>, limits: Limits, seeds: set<Path>)
    ensures multiset(Greedy(cs, limits, seeds).selected) + multiset(CandidatesOf(Rejected(cs, limits))) == multiset(cs)
  {
    hide OmissionReason, CandidatesOf;
    if cs == [] {
      assert CandidatesOf([]) == [] by { NoCandidates(); }
    } else {
      var front, c := cs[..|cs| - 1], cs[|cs| - 1];
      var sel, rej := Greedy(front, limits, seeds), Rejected(front, limits);
      CandidatesConserved(front, limits, seeds);
      SeedsDoNotChoose(front, limits, seeds);
      SplitGrows(sel.selected, CandidatesOf(rej), front, c);
      assert cs == front + [c];
      SeedsDoNotDecide(front, c, limits, seeds);
      var reason := OmissionReason(c, sel, limits);
      if reason.Some? {
        CandidatesOfAppend(rej, Omission(c, reason.value));
        assert Greedy(cs, limits, seeds).selected == sel.selected;
      } else {
        assert Greedy(cs, limits, seeds).selected == sel.selected + [c];
      }
    }
  }

  lemma ClampAdds(total: nat, n: usize)
    ensures SaturatingAdd(Clamp(total), n) == Clamp(total + n)
  {
  }

  /** What the last candidate does to the counters and the two lists. */
  lemma LastOffer(cs: seq<Candidate>, limits: Limits, seeds: set<Path>)
    requires cs != []
    ensures var front, c := cs[..|cs| - 1], cs[|cs| - 1];
            var before, after := Greedy(front, limits, seeds), Greedy(cs, limits, seeds);
            var reason := OmissionReason(c, before, limits);
            if reason.Some? then
              && after.selected == before.selected && after.selectedTokens == before.selectedTokens
              && after.omittedFiles == SaturatingAdd(before.omittedFiles, 1)
              && after.omittedTokens == SaturatingAdd(before.omittedTokens, c.tokens)
              && Rejected(cs, limits) == Rejected(front, limits) + [Omission(c, reason.value)]
            else
              && after.selected == before.selected + [c]
              && after.selectedTokens == SaturatingAdd(before.selectedTokens, c.tokens)
              && after.omittedFiles == before.omittedFiles && after.omittedTokens == before.omittedTokens
              && Rejected(cs, limits) == Rejected(front, limits)
  {
    hide SaturatingAdd;
    SeedsDoNotChoose(cs[..|cs| - 1], limits, seeds);
  }

  /** The counters are the clamped totals of the two lists. */
  lemma {:induction false} CountersAgree(cs: seq<Candidate>, limits: Limits, seeds: set<Path>)
    ensures Greedy(cs, limits, seeds).selectedTokens == Clamp(TokenSum(Greedy(cs, limits, seeds).selected))
    ensures Greedy(cs, limits, seeds).omittedTokens == Clamp(TokenSum(CandidatesOf(Rejected(cs, limits))))
    ensures Greedy(cs, limits, seeds).omittedFiles == Clamp(|Rejected(cs, limits)|)
  {
    if cs != [] {
      hide Greedy, Rejected, OmissionReason, TokenSum, CandidatesOf, SaturatingAdd, Clamp;
      var front, c := cs[..|cs| - 1], cs[|cs| - 1];
      CountersAgree(front, limits, seeds);
      LastOffer(cs, limits, seeds);
      var reason := OmissionReason(c, Greedy(front, limits, seeds), limits);
      if reason.Some? {
        CandidatesOfAppend(Rejected(front, limits), Omission(c, reason.value));
        TokenSumAppend(CandidatesOf(Rejected(front, limits)), c);
        ClampAdds(TokenSum(CandidatesOf(Rejected(front, limits))), c.tokens);
        ClampAdds(|Rejected(front, limits)|, 1);
      } else {
        TokenSumAppend(Greedy(front, limits, seeds).selected, c);
        ClampAdds(TokenSum(Greedy(front, limits, seeds).selected), c.tokens);
      }
    }
  }

  /** The reported omissions are the first ten rejections; the outlined ones are exactly the rejected seeds. */
  lemma {:induction false} OmissionsReported(cs: seq<Candidate>, limits: Limits, seeds: set<Path>)
    ensures Greedy(cs, limits, seeds).outlineOnly == SeedsOnly(Rejected(cs, limits), seeds)
    ensures var rej := Rejected(cs, limits);
            Greedy(cs, limits, seeds).omitted == if |rej| <= MAX_OMISSION_DETAILS then rej
                                                   else rej[..MAX_OMISSION_DETAILS]
  {
    if cs != [] {
      var front, c := cs[..|cs| - 1], cs[|cs| - 1];
      OmissionsReported(front, limits, seeds);
      SeedsDoNotChoose(front, limits, seeds);
      var reason := OmissionReason(c, Greedy(front, limits, {}), limits);
      if reason.Some? {
        SeedsOnlyAppend(Rejected(front, limits), Omission(c, reason.value), seeds);
      }
    }
  }

  lemma {:induction false} SelectionWithinLimits(cs: seq<Candidate>, limits: Limits, seeds: set<Path>)
    ensures var sel := Greedy(cs, limits, seeds);
            |sel.selected| <= limits.maxFiles && sel.selectedTokens <= limits.budget
  {
    if cs != [] {
      SelectionWithinLimits(cs[..|cs| - 1], limits, seeds);
    }
  }

  /** The true token total obeys the budget, except that a budget of usize::MAX cannot see an overflow. */
  lemma TrueTotalWithinBudget(cs: seq<Candidate>, limits: Limits, seeds: set<Path>)
    ensures var sel := Greedy(cs, limits, seeds);
            TokenSum(sel.selected) <= limits.budget
            <==> limits.budget < USIZE_MAX || TokenSum(cs[..Prefix(cs, limits)]) <= USIZE_MAX
  {
    CountersAgree(cs, limits, seeds);
    SelectionWithinLimits(cs, limits, seeds);
    if limits.budget == USIZE_MAX {
      UnboundedBudgetTakesPrefix(cs, limits, seeds);
    }
  }

  function Prefix(cs: seq<Candidate>, limits: Limits): nat
    ensures Prefix(cs, limits) <= |cs|
  {
    if |cs| < limits.maxFiles then |cs| else limits.maxFiles
  }

  /** With the largest budget nothing is ever too big: the first maxFiles candidates are taken. */
  lemma {:induction false} UnboundedBudgetTakesPrefix(cs: seq<Candidate>, limits: Limits, seeds: set<Path>)
    requires limits.budget == USIZE_MAX
    ensures Greedy(cs, limits, seeds).selected == cs[..Prefix(cs, limits)]
  {
    if cs != [] {
      UnboundedBudgetTakesPrefix(cs[..|cs| - 1], limits, seeds);
    }
  }

  /** A concrete overflow: both files are chosen although together they exceed the budget by one token. */
  lemma LargestBudgetOverflows(a: Path, b: Path)
    ensures var cs := [Candidate(0, 0, USIZE_MAX, a), Candidate(0, 0, 1, b)];
            var sel := Greedy(cs, Limits(2, USIZE_MAX), {});
            sel.selected == cs && TokenSum(sel.selected) == USIZE_MAX + 1
  {
    var cs := [Candidate(0, 0, USIZE_MAX, a), Candidate(0, 0, 1, b)];
    UnboundedBudgetTakesPrefix(cs, Limits(2, USIZE_MAX), {});
    assert cs[..1] == [cs[0]] && cs[..1][..0] == [];
    assert TokenSum(cs[..1]) == USIZE_MAX;
  }

  // ---------- The choice itself, without saturation ----------

  /** Reference semantics: take each candidate in ranked order while the exact totals allow it. */
  function Reference(cs: seq<Candidate>, limits: Limits): seq<Candidate> {
    if cs == [] then []
    else
      var chosen := Reference(cs[..|cs| - 1], limits);
      var c := cs[|cs| - 1];
      if |chosen| < limits.maxFiles && TokenSum(chosen) + c.tokens <= limits.budget then chosen + [c] else chosen
  }

  lemma {:induction false} GreedyRefinesReference(cs: seq<Candidate>, limits: Limits, seeds: set<Path>)
    requires limits.budget < USIZE_MAX
    ensures Greedy(cs, limits, seeds).selected == Reference(cs, limits)
  {
    if cs != [] {
      var front := cs[..|cs| - 1];
      GreedyRefinesReference(front, limits, seeds);
      CountersAgree(front, limits, seeds);
      SelectionWithinLimits(front, limits, seeds);
    }
  }

  lemma OnceRejectedAlways(c: Candidate, sel: Selection, limits: Limits, next: Candidate, seeds: set<Path>)
    requires OmissionReason(c, sel, limits).Some?
    ensures OmissionReason(c, Offer(sel, next, limits, seeds), limits).Some?
  {
  }

  /** A reason against the clamped counter is a reason against the true total. */
  lemma ReasonIsTrue(c: Candidate, sel: Selection, limits: Limits, total: nat)
    requires OmissionReason(c, sel, limits).Some? && sel.selectedTokens == Clamp(total)
    ensures |sel.selected| >= limits.maxFiles || total + c.tokens > limits.budget
  {
  }

  lemma {:induction false} StaysRejected(cs: seq<Candidate>, limits: Limits, seeds: set<Path>, o: Omission)
    requires o in Rejected(cs, limits)
    ensures OmissionReason(o.candidate, Greedy(cs, limits, seeds), limits).Some?
  {
    hide OmissionReason, Offer;
    var front, c := cs[..|cs| - 1], cs[|cs| - 1];
    if o in Rejected(front, limits) {
      StaysRejected(front, limits, seeds, o);
    } else {
      SeedsDoNotDecide(front, c, limits, seeds);
    }
    OnceRejectedAlways(o.candidate, Greedy(front, limits, seeds), limits, c, seeds);
  }

  /** Greedily maximal: nothing that was turned away would fit the final selection. */
  lemma NothingOmittedStillFits(cs: seq<Candidate>, limits: Limits, seeds: set<Path>, o: Omission)
    requires o in Rejected(cs, limits)
    ensures OmissionReason(o.candidate, Greedy(cs, limits, seeds), limits).Some?
    ensures var sel := Greedy(cs, limits, seeds);
            |sel.selected| >= limits.maxFiles || TokenSum(sel.selected) + o.candidate.tokens > limits.budget
  {
    hide OmissionReason, Offer, Greedy, Rejected, TokenSum, Clamp;
    StaysRejected(cs, limits, seeds, o);
    CountersAgree(cs, limits, seeds);
    ReasonIsTrue(o.candidate, Greedy(cs, limits, seeds), limits, TokenSum(Greedy(cs, limits, seeds).selected));
  }

  /** With distinct paths the plan is a function of the set of candidates, not of their order. */
  lemma SelectionIgnoresOrder(a: seq<Candidate>, b: seq<Candidate>, limits: Limits, seeds: set<Path>)
    requires multiset(a) == multiset(b)
    requires forall x, y :: x in a && y in a && x.path == y.path ==> x == y
    ensures Greedy(Sort(a, RankLe), limits, seeds) == Greedy(Sort(b, RankLe), limits, seeds)
  {
    RankOrder();
    forall x, y | x in a && y in a && RankLe(x, y) && RankLe(y, x)
      ensures x == y
    {
      PathLeAntisymmetric(x.path, y.path);
    }
    SortErasesOrder(a, b, RankLe);
  }

  // ---------- Who comes first, and who is passed over ----------

  /** Higher priority; then higher score; then fewer tokens; then the smaller path. */
  ghost predicate Outranks(x: Candidate, y: Candidate) {
    || x.priority > y.priority
    || (x.priority == y.priority && x.score > y.score)
    || (x.priority == y.priority && x.score == y.score && x.tokens < y.tokens)
    || (x.priority == y.priority && x.score == y.score && x.tokens == y.tokens && x.path != y.path
        && PathLe(x.path, y.path))
  }

  /** Whoever outranks another stands before it. */
  ghost predicate ByRank(cs: seq<Candidate>) {
    forall i, j :: 0 <= i < |cs| && 0 <= j < |cs| && Outranks(cs[i], cs[j]) ==> i < j
  }

  lemma OutranksIsStrict(x: Candidate, y: Candidate)
    ensures Outranks(x, y) <==> !RankLe(y, x)
  {
    PathLeTotal(x.path, y.path);
    if PathLe(x.path, y.path) && PathLe(y.path, x.path) {
      PathLeAntisymmetric(x.path, y.path);
    }
  }

  /** What is chosen or turned away comes from the candidates offered. */
  lemma FromOffered(cs: seq<Candidate>, limits: Limits, seeds: set<Path>)
    ensures forall c :: c in Greedy(cs, limits, seeds).selected ==> c in cs
    ensures forall o :: o in Rejected(cs, limits) ==> o.candidate in cs
  {
    var chosen, rejected := Greedy(cs, limits, seeds).selected, Rejected(cs, limits);
    CandidatesConserved(cs, limits, seeds);
    forall c | c in chosen
      ensures c in cs
    {
      assert c in multiset(chosen) + multiset(CandidatesOf(rejected));
    }
    forall o | o in rejected
      ensures o.candidate in cs
    {
      var i :| 0 <= i < |rejected| && rejected[i] == o;
      assert CandidatesOf(rejected)[i] == o.candidate;
      assert o.candidate in multiset(chosen) + multiset(CandidatesOf(rejected));
    }
  }

  lemma SortedAppend(s: seq<Candidate>, all: seq<Candidate>)
    requires all != [] && Sorted(all, RankLe) && Sorted(s, RankLe)
    requires forall c :: c in s ==> c in all[..|all| - 1]
    ensures Sorted(s + [all[|all| - 1]], RankLe)
  {
    hide RankLe;
    var last := all[|all| - 1];
    forall i, j | 0 <= i < j < |s + [last]|
      ensures RankLe((s + [last])[i], (s + [last])[j])
    {
      if j == |s| {
        assert s[i] in s;
        var k :| 0 <= k < |all| - 1 && all[..|all| - 1][k] == s[i];
      }
    }
  }

  lemma {:induction false} KeepsRank(cs: seq<Candidate>, limits: Limits, seeds: set<Path>)
    requires Sorted(cs, RankLe)
    ensures Sorted(Greedy(cs, limits, seeds).selected, RankLe)
    ensures Sorted(CandidatesOf(Rejected(cs, limits)), RankLe)
  {
    hide RankLe, OmissionReason;
    if cs != [] {
      var front, c := cs[..|cs| - 1], cs[|cs| - 1];
      KeepsRank(front, limits, seeds);
      FromOffered(front, limits, seeds);
      LastOffer(cs, limits, seeds);
      var reason := OmissionReason(c, Greedy(front, limits, seeds), limits);
      if reason.Some? {
        CandidatesOfAppend(Rejected(front, limits), Omission(c, reason.value));
        SortedAppend(CandidatesOf(Rejected(front, limits)), cs);
      } else {
        SortedAppend(Greedy(front, limits, seeds).selected, cs);
      }
    }
  }

  lemma {:induction false} SeedsOnlyKeeps(os: seq<Omission>, seeds: set<Path>)
    requires Sorted(CandidatesOf(os), RankLe)
    ensures Sorted(CandidatesOf(SeedsOnly(os, seeds)), RankLe)
    ensures forall o :: o in SeedsOnly(os, seeds) <==> o in os && o.candidate.path in seeds
  {
    hide RankLe;
    if os != [] {
      var front, last := os[..|os| - 1], os[|os| - 1];
      assert os == front + [last] && CandidatesOf(os)[..|os| - 1] == CandidatesOf(front);
      SortedPrefix(CandidatesOf(os), |os| - 1);
      SeedsOnlyKeeps(front, seeds);
      var rest := SeedsOnly(front, seeds);
      if last.candidate.path in seeds {
        forall c | c in CandidatesOf(rest)
          ensures c in CandidatesOf(os)[..|os| - 1]
        {
          var i :| 0 <= i < |rest| && rest[i].candidate == c;
          assert rest[i] in front;
          var k :| 0 <= k < |front| && front[k] == rest[i];
          assert CandidatesOf(front)[k] == c;
        }
        CandidatesOfAppend(rest, last);
        SortedAppend(CandidatesOf(rest), CandidatesOf(os));
      }
    }
  }

  lemma SortedPrefix(cs: seq<Candidate>, n: nat)
    requires Sorted(cs, RankLe) && n <= |cs|
    ensures Sorted(cs[..n], RankLe)
  {
  }

  /**
   * The chosen files, the first ten omissions and the outlined seeds are all listed by rank. Outlined are exactly the
   * seeds among all that was turned away.
   */
  lemma ListedByRank(candidates: seq<Candidate>, limits: Limits, seeds: set<Path>, selection: Selection)
    requires selection == Greedy(Sort(candidates, RankLe), limits, seeds)
    ensures ByRank(selection.selected)
    ensures ByRank(CandidatesOf(selection.omitted)) && ByRank(CandidatesOf(selection.outlineOnly))
    ensures forall o :: o in selection.outlineOnly
              <==> o in Rejected(Sort(candidates, RankLe), limits) && o.candidate.path in seeds
  {
    hide RankLe, ByRank, Sorted;
    var ranked := Sort(candidates, RankLe);
    var rejected := Rejected(ranked, limits);
    RankOrder();
    SortSorted(candidates, RankLe);
    KeepsRank(ranked, limits, seeds);
    OmissionsReported(ranked, limits, seeds);
    SeedsOnlyKeeps(rejected, seeds);
    var n := if |rejected| <= MAX_OMISSION_DETAILS then |rejected| else MAX_OMISSION_DETAILS;
    assert CandidatesOf(selection.omitted) == CandidatesOf(rejected)[..n];
    SortedPrefix(CandidatesOf(rejected), n);
    RankedEarlier(selection.selected);
    RankedEarlier(CandidatesOf(selection.omitted));
    RankedEarlier(CandidatesOf(selection.outlineOnly));
  }

  lemma RankedEarlier(cs: seq<Candidate>)
    requires Sorted(cs, RankLe)
    ensures ByRank(cs)
  {
    hide RankLe, Outranks, Sorted;
    RankOrder();
    forall i, j | 0 <= i < |cs| && 0 <= j < |cs| && Outranks(cs[i], cs[j])
      ensures i < j
    {
      OutranksIsStrict(cs[i], cs[j]);
      SmallerIsEarlier(cs, RankLe, i, j);
    }
  }

  /** Why a candidate was turned away when k files were chosen: no file is left to choose, or the tokens do not fit. */
  ghost predicate DidNotFit(o: Omission, selected: seq<Candidate>, k: nat, limits: Limits)
    requires k <= |selected|
  {
    && (o.reason.FileLimitReached? <==> k == limits.maxFiles)
    && (o.reason.ExceedsTotalBudget? <==> k < limits.maxFiles && o.candidate.tokens > limits.budget)
    && (o.reason.DoesNotFitRemaining? ==> TokenSum(selected[..k]) + o.candidate.tokens > limits.budget)
  }

  lemma ReasonMeans(c: Candidate, sel: Selection, limits: Limits)
    requires OmissionReason(c, sel, limits).Some? && sel.selectedTokens == Clamp(TokenSum(sel.selected))
    requires |sel.selected| <= limits.maxFiles
    ensures DidNotFit(Omission(c, OmissionReason(c, sel, limits).value), sel.selected, |sel.selected|, limits)
  {
    hide TokenSum;
    assert sel.selected[..|sel.selected|] == sel.selected;
  }

  /**
   * A candidate that was turned away did not fit beside the files chosen before its turn. None of those it outranks,
   * and none of the files chosen after its turn outranks it.
   */
  lemma {:induction false} TurnedAwayInTurn(cs: seq<Candidate>, limits: Limits, seeds: set<Path>, o: Omission)
    returns (k: nat)
    requires Sorted(cs, RankLe) && o in Rejected(cs, limits)
    ensures var selected := Greedy(cs, limits, seeds).selected;
            && k <= |selected| && DidNotFit(o, selected, k, limits)
            && (forall i :: 0 <= i < k ==> !Outranks(o.candidate, selected[i]))
            && (forall i :: k <= i < |selected| ==> !Outranks(selected[i], o.candidate))
  {
    hide RankLe, OmissionReason, DidNotFit, Outranks;
    var front, c := cs[..|cs| - 1], cs[|cs| - 1];
    var before := Greedy(front, limits, seeds);
    LastOffer(cs, limits, seeds);
    FromOffered(front, limits, seeds);
    SortedPrefix(cs, |cs| - 1);
    if o in Rejected(front, limits) {
      k := TurnedAwayInTurn(front, limits, seeds, o);
      NotOutrankedByLast(cs, o.candidate);
      SameFit(o, before.selected, Greedy(cs, limits, seeds).selected, k, limits);
    } else {
      k := |before.selected|;
      SelectionWithinLimits(front, limits, seeds);
      CountersAgree(front, limits, seeds);
      ReasonMeans(c, before, limits);
      forall i | 0 <= i < k
        ensures !Outranks(c, before.selected[i])
      {
        NotOutrankedByLast(cs, before.selected[i]);
      }
    }
  }

  lemma NotOutrankedByLast(cs: seq<Candidate>, c: Candidate)
    requires cs != [] && Sorted(cs, RankLe) && c in cs[..|cs| - 1]
    ensures !Outranks(cs[|cs| - 1], c)
  {
    hide RankLe, Outranks;
    var i :| 0 <= i < |cs| - 1 && cs[..|cs| - 1][i] == c;
    OutranksIsStrict(cs[|cs| - 1], c);
  }

  lemma SameFit(o: Omission, selected: seq<Candidate>, more: seq<Candidate>, k: nat, limits: Limits)
    requires k <= |selected| && selected <= more && DidNotFit(o, selected, k, limits)
    ensures DidNotFit(o, more, k, limits)
  {
    assert more[..k] == selected[..k];
  }

  /**
   * A candidate is passed over for one it outranks only if there was room for files, but not for its tokens beside what
   * was chosen before it, all of which it does not outrank.
   */
  lemma PassedOver(candidates: seq<Candidate>, limits: Limits, seeds: set<Path>, o: Omission, i: nat) returns (k: nat)
    requires o in Rejected(Sort(candidates, RankLe), limits)
    requires var selected := Greedy(Sort(candidates, RankLe), limits, seeds).selected;
             i < |selected| && Outranks(o.candidate, selected[i])
    ensures var selected := Greedy(Sort(candidates, RankLe), limits, seeds).selected;
            && k <= i && k < limits.maxFiles && TokenSum(selected[..k]) + o.candidate.tokens > limits.budget
            && forall j :: 0 <= j < k ==> !Outranks(o.candidate, selected[j])
  {
    hide RankLe, Outranks, TokenSum;
    var ranked := Sort(candidates, RankLe);
    RankOrder();
    SortSorted(candidates, RankLe);
    k := TurnedAwayInTurn(ranked, limits, seeds, o);
    SelectionWithinLimits(ranked, limits, seeds);
  }
}
