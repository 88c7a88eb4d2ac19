/** Presenting a used refresh token ends its family (src/store.rs:264-275 with src/grants.rs:277-371). */
module FamilyRevocation {
  import opened Documents
  import opened Tokens
  import opened FamilyWalk
  import opened MemoryStore
  import opened TokenGrants
  import opened HandlerRuns

  type Refreshes = Table<RefreshToken>

  /** The tokens of each family, oldest first. Only issuing and rotation write here, and a family is
      struck out when a live token of it is deleted: by a revocation, a replayed code or a reuse. */
  type Lines = map<string, seq<string>>

  ghost predicate LiveKept(t: Refreshes, t': Refreshes, family: string, now: nat) {
    forall k :: k in t && t[k].Alive(now) && t[k].value.familyId == family ==> k in t'
  }

  ghost function Intact(lines: Lines, t: Refreshes, t': Refreshes, now: nat): Lines {
    map f | f in lines && LiveKept(t, t', f, now) :: lines[f]
  }

  /** The family that the refresh token of this answer joins. */
  ghost function Joined(s: Store, e: Event): string {
    match e.op
    case GrantByRefresh(r) =>
      var pre := Peek(s.refreshTokens, r.token, e.now);
      if pre.Some? then pre.value.familyId else e.drawn.family
    case _ => e.drawn.family
  }

  ghost function LinesAfter(s: Store, lines: Lines, e: Event): Lines {
    var (o, s') := Perform(s, e);
    var kept := Intact(lines, s.refreshTokens, s'.refreshTokens, e.now);
    var f := Joined(s, e);
    if !(o.Answer? && o.o.Issued? && o.o.refresh.Some?) then kept
    else if e.op.GrantByCode? then kept[f := [o.o.refresh.value]]
    else if f in kept then kept[f := kept[f] + [o.o.refresh.value]]
    else kept
  }

  ghost function LinesOf(es: seq<Event>): Lines {
    if es == [] then map[] else LinesAfter(Run(es[..|es| - 1]), LinesOf(es[..|es| - 1]), es[|es| - 1])
  }

  // ----- What an intact family looks like in the store -----

  /** The i-th token of a line: while it lives its successor is stored and lives at least as long, and
      its link, once used, leads to that successor; the last token's link leads nowhere. */
  ghost predicate LinkInLine(t: Refreshes, line: seq<string>, i: nat, now: nat)
    requires i < |line|
  {
    line[i] in t ==>
      if i == |line| - 1 then t[line[i]].value.replacedBy.Some? ==> t[line[i]].value.replacedBy.value !in t
      else t[line[i]].value.used && t[line[i]].value.replacedBy == Some(line[i + 1]) &&
           (t[line[i]].Alive(now) ==> line[i + 1] in t && t[line[i]].expiresAt <= t[line[i + 1]].expiresAt)
  }

  ghost predicate NoRepeats(line: seq<string>) {
    forall i, j :: 0 <= i < j < |line| ==> line[i] != line[j]
  }

  ghost predicate LineOk(t: Refreshes, f: string, line: seq<string>, now: nat, ids: set<string>) {
    && line != [] && NoRepeats(line)
    && (forall i :: 0 <= i < |line| ==> line[i] in ids)
    && (forall i :: 0 <= i < |line| && line[i] in t ==> t[line[i]].value.familyId == f)
    && (forall i :: 0 <= i < |line| ==> LinkInLine(t, line, i, now))
    && (forall k :: k in t && t[k].value.familyId == f ==> k in line)
  }

  ghost predicate LinesOk(t: Refreshes, lines: Lines, now: nat, ids: set<string>, families: set<string>) {
    && (forall k :: k in t ==> t[k].value.familyId in families)
    && (forall f :: f in lines ==> f in families && LineOk(t, f, lines[f], now, ids))
  }

  // ----- Every call keeps it -----

  /** Deleting tokens, but no live one of the family. */
  lemma ShrunkLine(t: Refreshes, t': Refreshes, f: string, line: seq<string>, now: nat, later: nat, ids: set<string>,
                   ids': set<string>)
    requires LineOk(t, f, line, now, ids) && now <= later && ids <= ids'
    requires LiveKept(t, t', f, later) && forall k :: k in t' ==> k in t && t'[k] == t[k]
    ensures LineOk(t', f, line, later, ids')
  {
    forall i | 0 <= i < |line| ensures LinkInLine(t', line, i, later) {
      assert LinkInLine(t, line, i, now);
      if i + 1 < |line| && line[i] in t' && t'[line[i]].Alive(later) {
        assert t[line[i + 1]].Alive(later);
      }
    }
  }

  /** A change that adds one token of another family, or alters one. */
  lemma OtherLine(t: Refreshes, t': Refreshes, f: string, line: seq<string>, now: nat, ids: set<string>, new_: string)
    requires LineOk(t, f, line, now, ids) && new_ !in ids
    requires forall k :: k in t ==> k in t'
    requires forall k :: k in t' && k != new_ ==> k in t && t'[k].value.familyId == t[k].value.familyId
    requires forall k :: k in t && t[k].value.familyId == f ==> t'[k] == t[k]
    requires new_ in t' ==> t'[new_].value.familyId != f
    requires forall k :: k in t && t[k].value.replacedBy.Some? ==> t[k].value.replacedBy.value in ids
    ensures LineOk(t', f, line, now, ids + {new_})
  {
    forall i | 0 <= i < |line| ensures LinkInLine(t', line, i, now) { assert LinkInLine(t, line, i, now); }
  }

  /** Only the last token of a line can be unused. */
  lemma UnusedIsLast(t: Refreshes, f: string, line: seq<string>, now: nat, ids: set<string>, k: string)
    requires LineOk(t, f, line, now, ids) && k in t && t[k].value.familyId == f && !t[k].value.used
    ensures line[|line| - 1] == k
  {
    var i :| 0 <= i < |line| && line[i] == k;
    assert LinkInLine(t, line, i, now);
  }

  /** The rotated family: its last token is marked used, and the successor, if saved, becomes the last. */
  lemma RotatedLine(t: Refreshes, f: string, line: seq<string>, now: nat, ids: set<string>, k: string,
                    next: Option<string>)
    requires LineOk(t, f, line, now, ids) && k in t && t[k].Alive(now) && t[k].value.familyId == f && !t[k].value.used
    requires next.Some? ==> next.value !in t && next.value !in ids
    ensures LineOk(RefreshMarked(t, k, next, now).1, f, line, now, ids)
  {
    UnusedIsLast(t, f, line, now, ids, k);
    var t' := RefreshMarked(t, k, next, now).1;
    forall i | 0 <= i < |line| ensures LinkInLine(t', line, i, now) { assert LinkInLine(t, line, i, now); }
  }

  lemma ExtendedLine(t: Refreshes, f: string, line: seq<string>, now: nat, ids: set<string>, k: string,
                     new_: RefreshToken)
    requires LineOk(t, f, line, now, ids) && k in t && t[k].value.familyId == f
    requires k == line[|line| - 1] && t[k].value.used && t[k].value.replacedBy == Some(new_.token)
    requires t[k].expiresAt <= now + REFRESH_TTL
    requires new_.token !in ids && new_.token !in t && new_.familyId == f && new_.replacedBy.None?
    ensures LineOk(t[new_.token := Expiring(new_, now + REFRESH_TTL)], f, line + [new_.token], now, ids + {new_.token})
  {
    var t', line' := t[new_.token := Expiring(new_, now + REFRESH_TTL)], line + [new_.token];
    forall i | 0 <= i < |line'| ensures LinkInLine(t', line', i, now) {
      if i < |line| { assert LinkInLine(t, line, i, now); }
    }
    forall x | x in t' && t'[x].value.familyId == f ensures x in line' {
      assert x in line || x == line'[|line|];
    }
  }

  /** A new family of one token. */
  lemma NewLine(t: Refreshes, new_: RefreshToken, now: nat, ids: set<string>, families: set<string>)
    requires new_.replacedBy.None? && new_.token !in ids && new_.token !in t && new_.familyId !in families
    requires forall k :: k in t ==> t[k].value.familyId in families
    ensures LineOk(t[new_.token := Expiring(new_, now + REFRESH_TTL)], new_.familyId, [new_.token], now,
                   ids + {new_.token})
  {
    var t' := t[new_.token := Expiring(new_, now + REFRESH_TTL)];
    assert LinkInLine(t', [new_.token], 0, now);
    forall k | k in t' && t'[k].value.familyId == new_.familyId ensures k in [new_.token] { assert k !in t; }
  }

  /** Everything known before a call at its own second. */
  ghost predicate Ready(t: Refreshes, lines: Lines, now: nat, ids: set<string>, families: set<string>, d: Draw) {
    && RefreshOk(t, now, ids) && LinesOk(t, lines, now, ids, families) && d.refresh !in ids && d.family !in families
  }

  lemma Known(t: Refreshes, now: nat, ids: set<string>)
    requires RefreshOk(t, now, ids)
    ensures forall k :: k in t ==> k in ids && t[k].value.token == k && t[k].expiresAt <= now + REFRESH_TTL
    ensures forall k :: k in t && t[k].value.replacedBy.Some? ==> t[k].value.replacedBy.value in ids
  {
    forall k | k in t
      ensures k in ids && t[k].value.token == k && t[k].expiresAt <= now + REFRESH_TTL
      ensures t[k].value.replacedBy.Some? ==> t[k].value.replacedBy.value in ids
    {
      assert EntryOk(t, k, now, ids);
    }
  }

  /** The refresh tokens after a rotation by a token that passed every check. */
  function TableAfter(t: Refreshes, r: Presented, pre: RefreshToken, d: Draw, now: nat): Refreshes
    requires Check(r, pre).Pass?
  {
    var scope := Check(r, pre).scope;
    var marked := RefreshMarked(t, r.token, NextName(scope, d), now).1;
    if r.canSign && HasScope(scope, OFFLINE)
    then marked[d.refresh := Expiring(Successor(r, pre, scope, d.refresh), now + REFRESH_TTL)] else marked
  }

  function LineAfter(line: seq<string>, r: Presented, pre: RefreshToken, d: Draw): seq<string>
    requires Check(r, pre).Pass?
  {
    if r.canSign && HasScope(Check(r, pre).scope, OFFLINE) then line + [d.refresh] else line
  }

  lemma OwnLine(t: Refreshes, line: seq<string>, r: Presented, pre: RefreshToken, d: Draw, now: nat, ids: set<string>)
    requires LineOk(t, pre.familyId, line, now, ids) && RefreshOk(t, now, ids) && d.refresh !in ids
    requires Peek(t, r.token, now) == Some(pre) && Check(r, pre).Pass?
    ensures LineOk(TableAfter(t, r, pre, d, now), pre.familyId, LineAfter(line, r, pre, d), now, ids + {d.refresh})
  {
    var scope := Check(r, pre).scope;
    var next := NextName(scope, d);
    Known(t, now, ids);
    RotatedLine(t, pre.familyId, line, now, ids, r.token, next);
    var marked := RefreshMarked(t, r.token, next, now).1;
    if r.canSign && HasScope(scope, OFFLINE) {
      UnusedIsLast(t, pre.familyId, line, now, ids, r.token);
      ExtendedLine(marked, pre.familyId, line, now, ids, r.token, Successor(r, pre, scope, d.refresh));
    } else {
      ShrunkLine(marked, marked, pre.familyId, line, now, now, ids, ids + {d.refresh});
    }
  }

  lemma ForeignLine(t: Refreshes, f: string, line: seq<string>, r: Presented, pre: RefreshToken, d: Draw, now: nat,
                    ids: set<string>)
    requires LineOk(t, f, line, now, ids) && RefreshOk(t, now, ids) && d.refresh !in ids
    requires Peek(t, r.token, now) == Some(pre) && Check(r, pre).Pass? && f != pre.familyId
    ensures LineOk(TableAfter(t, r, pre, d, now), f, line, now, ids + {d.refresh})
  {
    Known(t, now, ids);
    OtherLine(t, TableAfter(t, r, pre, d, now), f, line, now, ids, d.refresh);
  }

  lemma RotateSteps(s: Store, lines: Lines, e: Event, pre: RefreshToken)
    requires e.op.GrantByRefresh? && Peek(s.refreshTokens, e.op.r.token, e.now) == Some(pre) && Check(e.op.r, pre).Pass?
    ensures Perform(s, e).1.refreshTokens == TableAfter(s.refreshTokens, e.op.r, pre, e.drawn, e.now)
    ensures LinesAfter(s, lines, e) ==
              if pre.familyId !in lines then lines
              else lines[pre.familyId := LineAfter(lines[pre.familyId], e.op.r, pre, e.drawn)]
  {
    var t, t' := s.refreshTokens, Perform(s, e).1.refreshTokens;
    assert s.(refreshTokens := t) == s;
    assert Perform(s, e).1 == Renewed(s, e.op.r, pre, Check(e.op.r, pre).scope, e.drawn, e.now).1;
    assert Intact(lines, t, t', e.now) == lines;
  }

  lemma RotateKeepsLines(s: Store, lines: Lines, e: Event, ids: set<string>, families: set<string>)
    requires e.op.GrantByRefresh? && Ready(s.refreshTokens, lines, e.now, ids, families, e.drawn)
    requires Peek(s.refreshTokens, e.op.r.token, e.now).Some?
    requires Check(e.op.r, Peek(s.refreshTokens, e.op.r.token, e.now).value).Pass?
    ensures LinesOk(Perform(s, e).1.refreshTokens, LinesAfter(s, lines, e), e.now, ids + {e.drawn.refresh},
                    families + {e.drawn.family})
  {
    var r, t := e.op.r, s.refreshTokens;
    var pre := Peek(t, r.token, e.now).value;
    RotateSteps(s, lines, e, pre);
    var t', lines' := TableAfter(t, r, pre, e.drawn, e.now), LinesAfter(s, lines, e);
    forall f | f in lines' ensures f in families && LineOk(t', f, lines'[f], e.now, ids + {e.drawn.refresh}) {
      if f == pre.familyId {
        OwnLine(t, lines[f], r, pre, e.drawn, e.now, ids);
      } else {
        ForeignLine(t, f, lines[f], r, pre, e.drawn, e.now, ids);
      }
    }
  }

  /** Calls that add no refresh token and alter none. */
  ghost predicate OnlyRemoves(s: Store, lines: Lines, e: Event) {
    var t, t' := s.refreshTokens, Perform(s, e).1.refreshTokens;
    && (forall k :: k in t' ==> k in t && t'[k] == t[k])
    && LinesAfter(s, lines, e) == Intact(lines, t, t', e.now)
  }

  lemma ShrinkKeepsLines(s: Store, lines: Lines, e: Event, ids: set<string>, families: set<string>)
    requires Ready(s.refreshTokens, lines, e.now, ids, families, e.drawn) && OnlyRemoves(s, lines, e)
    ensures LinesOk(Perform(s, e).1.refreshTokens, LinesAfter(s, lines, e), e.now, ids + {e.drawn.refresh},
                    families + {e.drawn.family})
  {
    var t, t', lines' := s.refreshTokens, Perform(s, e).1.refreshTokens, LinesAfter(s, lines, e);
    forall f | f in lines' ensures f in families && LineOk(t', f, lines'[f], e.now, ids + {e.drawn.refresh}) {
      ShrunkLine(t, t', f, lines[f], e.now, e.now, ids, ids + {e.drawn.refresh});
    }
  }

  predicate Issues(s: Store, e: Event) {
    e.op.GrantByCode? && Perform(s, e).0.o.Issued? && Perform(s, e).0.o.refresh.Some?
  }

  lemma IssueSteps(s: Store, lines: Lines, e: Event) returns (new_: RefreshToken)
    requires Issues(s, e)
    ensures new_.token == e.drawn.refresh && new_.familyId == e.drawn.family && new_.replacedBy.None?
    ensures Perform(s, e).1.refreshTokens == s.refreshTokens[new_.token := Expiring(new_, e.now + REFRESH_TTL)]
    ensures LinesAfter(s, lines, e) == lines[e.drawn.family := [e.drawn.refresh]]
  {
    var code := CodeTaken(s, e.op.code.code, e.now, e.lazy).0.value;
    new_ := FirstRefresh(e.op.code, code, e.drawn).value;
    assert Intact(lines, s.refreshTokens, Perform(s, e).1.refreshTokens, e.now) == lines;
  }

  lemma IssuedLines(t: Refreshes, lines: Lines, new_: RefreshToken, t': Refreshes, lines': Lines, now: nat,
                    ids: set<string>, families: set<string>)
    requires RefreshOk(t, now, ids) && LinesOk(t, lines, now, ids, families)
    requires new_.replacedBy.None? && new_.token !in ids && new_.familyId !in families
    requires t' == t[new_.token := Expiring(new_, now + REFRESH_TTL)] && lines' == lines[new_.familyId := [new_.token]]
    ensures LinesOk(t', lines', now, ids + {new_.token}, families + {new_.familyId})
  {
    Known(t, now, ids);
    NewLine(t, new_, now, ids, families);
    forall f | f in lines ensures LineOk(t', f, lines[f], now, ids + {new_.token}) {
      OtherLine(t, t', f, lines[f], now, ids, new_.token);
    }
  }

  lemma IssueKeepsLines(s: Store, lines: Lines, e: Event, ids: set<string>, families: set<string>)
    requires Issues(s, e) && Ready(s.refreshTokens, lines, e.now, ids, families, e.drawn)
    ensures LinesOk(Perform(s, e).1.refreshTokens, LinesAfter(s, lines, e), e.now, ids + {e.drawn.refresh},
                    families + {e.drawn.family})
  {
    var new_ := IssueSteps(s, lines, e);
    IssuedLines(s.refreshTokens, lines, new_, Perform(s, e).1.refreshTokens, LinesAfter(s, lines, e), e.now, ids,
                families);
  }

  lemma OtherCallsOnlyRemove(s: Store, lines: Lines, e: Event)
    requires !e.op.GrantByCode? && !e.op.GrantByRefresh?
    ensures OnlyRemoves(s, lines, e)
  {
    if e.op.GetRefresh? || e.op.Revoke? || e.op.Clean? {
      SomeRemoved(s, lines, e);
    } else {
      NothingRemoved(s, lines, e);
    }
  }

  lemma SomeRemoved(s: Store, lines: Lines, e: Event)
    requires e.op.GetRefresh? || e.op.Revoke? || e.op.Clean?
    ensures OnlyRemoves(s, lines, e)
  {}

  lemma NothingRemoved(s: Store, lines: Lines, e: Event)
    requires e.op.OnInteraction? || e.op.OnSession? || e.op.OnAccess? || e.op.SaveCode?
    ensures OnlyRemoves(s, lines, e)
  {}

  lemma RefusedCodeOnlyRemoves(s: Store, lines: Lines, e: Event)
    requires e.op.GrantByCode? && !Issues(s, e)
    ensures OnlyRemoves(s, lines, e)
  {}

  lemma RefusedRefreshOnlyRemoves(s: Store, lines: Lines, e: Event)
    requires e.op.GrantByRefresh?
    requires var pre := Peek(s.refreshTokens, e.op.r.token, e.now); pre.Some? ==> !Check(e.op.r, pre.value).Pass?
    ensures OnlyRemoves(s, lines, e)
  {}

  lemma PerformKeepsLines(s: Store, lines: Lines, e: Event, ids: set<string>, families: set<string>)
    requires Ready(s.refreshTokens, lines, e.now, ids, families, e.drawn)
    ensures LinesOk(Perform(s, e).1.refreshTokens, LinesAfter(s, lines, e), e.now, ids + {e.drawn.refresh},
                    families + {e.drawn.family})
  {
    if e.op.GrantByRefresh? {
      var pre := Peek(s.refreshTokens, e.op.r.token, e.now);
      if pre.Some? && Check(e.op.r, pre.value).Pass? {
        RotateKeepsLines(s, lines, e, ids, families);
        return;
      }
      RefusedRefreshOnlyRemoves(s, lines, e);
    } else if Issues(s, e) {
      IssueKeepsLines(s, lines, e, ids, families);
      return;
    } else if e.op.GrantByCode? {
      RefusedCodeOnlyRemoves(s, lines, e);
    } else {
      OtherCallsOnlyRemove(s, lines, e);
    }
    ShrinkKeepsLines(s, lines, e, ids, families);
  }

  lemma {:induction false} RunKeepsLines(es: seq<Event>)
    requires Orderly(es)
    ensures LinesOk(Run(es).refreshTokens, LinesOf(es), Clock(es), RefreshIds(es), FamilyIds(es))
  {
    if es != [] {
      var before, e := es[..|es| - 1], es[|es| - 1];
      OrderlyStep(es);
      RunKeepsLines(before);
      RunKeepsOk(before);
      Later(Run(before).refreshTokens, LinesOf(before), Clock(before), e.now, RefreshIds(before), FamilyIds(before));
      PerformKeepsLines(Run(before), LinesOf(before), e, RefreshIds(before), FamilyIds(before));
    }
  }

  lemma Later(t: Refreshes, lines: Lines, now: nat, later: nat, ids: set<string>, families: set<string>)
    requires RefreshOk(t, now, ids) && LinesOk(t, lines, now, ids, families) && now <= later
    ensures RefreshOk(t, later, ids) && LinesOk(t, lines, later, ids, families)
  {
    ShrunkOk(t, t, now, later, ids, ids);
    forall f | f in lines ensures LineOk(t, f, lines[f], later, ids) {
      ShrunkLine(t, t, f, lines[f], now, later, ids, ids);
    }
  }

  // ----- Reuse -----

  /** From a live token of a line on, every token of the line is stored and live. */
  lemma {:induction false} LiveFromHere(t: Refreshes, f: string, line: seq<string>, now: nat, ids: set<string>,
                                        i: nat, j: nat)
    requires LineOk(t, f, line, now, ids) && i <= j < |line|
    requires line[i] in t && t[line[i]].Alive(now)
    ensures line[j] in t && t[line[j]].Alive(now)
    ensures j < |line| - 1 ==> t[line[j]].value.used && t[line[j]].value.replacedBy == Some(line[j + 1])
    decreases j - i
  {
    if i < j {
      LiveFromHere(t, f, line, now, ids, i, j - 1);
      assert LinkInLine(t, line, j - 1, now);
    }
    assert LinkInLine(t, line, j, now);
  }

  lemma ChainIsTheRest(t: Refreshes, f: string, line: seq<string>, now: nat, ids: set<string>, i: nat)
    requires LineOk(t, f, line, now, ids) && i < |line| && line[i] in t && t[line[i]].Alive(now)
    ensures Chain(LinksOf(t), Some(line[i])) == line[i..]
  {
    var path, links := line[i..], LinksOf(t);
    forall j | 0 <= j < |path|
      ensures path[j] in links && (j < |path| - 1 ==> links[path[j]] == Some(path[j + 1]))
    {
      LiveFromHere(t, f, line, now, ids, i, i + j);
    }
    assert LinkInLine(t, line, |line| - 1, now);
    ChainFollowsPath(links, path);
  }

  predicate Redeemable(t: Refreshes, k: string, now: nat) {
    k in t && t[k].Alive(now) && !t[k].value.used
  }

  /** Only a last token more than 64 places away can still be redeemed. */
  lemma WhatReuseLeaves(t: Refreshes, f: string, line: seq<string>, now: nat, ids: set<string>, i: nat, k: string)
    requires LineOk(t, f, line, now, ids) && i < |line|
    requires k in t && t[k].value.familyId == f && !t[k].value.used
    ensures k in Elements(line[i..][..Least(WALK_LIMIT, |line| - i)]) <==> |line| - i <= WALK_LIMIT
    ensures k == line[|line| - 1]
  {
    UnusedIsLast(t, f, line, now, ids, k);
    var rest := line[i..];
    var gone := rest[..Least(WALK_LIMIT, |rest|)];
    if |rest| <= WALK_LIMIT {
      assert gone[|rest| - 1] == k;
    } else {
      forall j | 0 <= j < |gone| ensures gone[j] != k { assert gone[j] == line[i + j]; }
    }
  }

  /** From its i-th token on, exactly the first min(64, n) of the family's n tokens are deleted, and a token
      of the family can still be redeemed exactly when the last one could be and lies further than that. */
  ghost predicate Ended(t: Refreshes, t': Refreshes, f: string, line: seq<string>, i: nat, now: nat) {
    && i < |line| && NoRepeats(line)
    && (forall k :: k in t && t[k].value.familyId == f ==> k in line)
    && t' == t - Elements(line[i..][..Least(64, |line| - i)])
    && ((exists k :: Redeemable(t', k, now) && t'[k].value.familyId == f) <==>
        |line| - i > 64 && Redeemable(t, line[|line| - 1], now))
  }

  /** What the walk from a live token of an intact line leaves of its family. */
  lemma WalkEndsTheLine(t: Refreshes, t': Refreshes, f: string, line: seq<string>, now: nat, ids: set<string>, i: nat)
    requires LineOk(t, f, line, now, ids) && i < |line| && line[i] in t && t[line[i]].Alive(now)
    requires t' == t - Revoked(t, line[i])
    ensures Ended(t, t', f, line, i, now)
  {
    ChainIsTheRest(t, f, line, now, ids, i);
    var last := line[|line| - 1];
    forall k | Redeemable(t', k, now) && t'[k].value.familyId == f
      ensures |line| - i > WALK_LIMIT && Redeemable(t, last, now)
    {
      WhatReuseLeaves(t, f, line, now, ids, i, k);
    }
    if |line| - i > WALK_LIMIT && Redeemable(t, last, now) {
      WhatReuseLeaves(t, f, line, now, ids, i, last);
      assert Redeemable(t', last, now);
    }
  }

  /** In a reachable state, a live token of an intact family has its place in the family's line. */
  lemma PlaceInLine(es: seq<Event>, now: nat, token: string) returns (i: nat)
    requires Orderly(es) && Clock(es) <= now && token in Run(es).refreshTokens
    requires Run(es).refreshTokens[token].value.familyId in LinesOf(es)
    ensures var t := Run(es).refreshTokens;
      var f := t[token].value.familyId;
      LineOk(t, f, LinesOf(es)[f], now, RefreshIds(es)) && i < |LinesOf(es)[f]| && LinesOf(es)[f][i] == token
  {
    var t := Run(es).refreshTokens;
    RunKeepsOk(es);
    RunKeepsLines(es);
    Later(t, LinesOf(es), Clock(es), now, RefreshIds(es), FamilyIds(es));
    i :| 0 <= i < |LinesOf(es)[t[token].value.familyId]| && LinesOf(es)[t[token].value.familyId][i] == token;
  }

  lemma WalkInAnyRun(es: seq<Event>, now: nat, token: string, t': Refreshes) returns (i: nat)
    requires Orderly(es) && Clock(es) <= now && Peek(Run(es).refreshTokens, token, now).Some?
    requires Run(es).refreshTokens[token].value.familyId in LinesOf(es)
    requires t' == Run(es).refreshTokens - Revoked(Run(es).refreshTokens, token)
    ensures var f := Run(es).refreshTokens[token].value.familyId;
      Ended(Run(es).refreshTokens, t', f, LinesOf(es)[f], i, now) && LinesOf(es)[f][i] == token
  {
    i := PlaceInLine(es, now, token);
    var t := Run(es).refreshTokens;
    var f := t[token].value.familyId;
    WalkEndsTheLine(t, t', f, LinesOf(es)[f], now, RefreshIds(es), i);
  }

  ghost predicate Reuses(s: Store, e: Event) {
    e.op.GrantByRefresh? && Peek(s.refreshTokens, e.op.r.token, e.now).Some? &&
    Check(e.op.r, Peek(s.refreshTokens, e.op.r.token, e.now).value).Reused?
  }

  lemma ReuseRemoves(s: Store, e: Event)
    requires Reuses(s, e)
    ensures Perform(s, e).0 == Answer(Failed(ReuseDetected))
    ensures Perform(s, e).1.refreshTokens == s.refreshTokens - Revoked(s.refreshTokens, e.op.r.token)
  {}

  /** Presenting a used, live token with the right client and key, after any run that left its family intact. */
  lemma ReuseEndsTheFamily(es: seq<Event>, e: Event) returns (i: nat)
    requires Orderly(es) && Clock(es) <= e.now && Reuses(Run(es), e)
    requires Run(es).refreshTokens[e.op.r.token].value.familyId in LinesOf(es)
    ensures Perform(Run(es), e).0 == Answer(Failed(ReuseDetected))
    ensures var f := Run(es).refreshTokens[e.op.r.token].value.familyId;
      Ended(Run(es).refreshTokens, Perform(Run(es), e).1.refreshTokens, f, LinesOf(es)[f], i, e.now) &&
      LinesOf(es)[f][i] == e.op.r.token
  {
    ReuseRemoves(Run(es), e);
    i := WalkInAnyRun(es, e.now, e.op.r.token, Perform(Run(es), e).1.refreshTokens);
  }

  // ----- A replayed code -----

  /** The call presents a code that was already redeemed, for this refresh token among others. */
  ghost predicate ReplaysCode(s: Store, e: Event, token: string) {
    e.op.GrantByCode? &&
    var record := Peek(s.codes, e.op.code.code, e.now);
    record.Some? && record.value.used && record.value.issuedRefresh == Some(token)
  }

  lemma ReplayRemoves(s: Store, e: Event, token: string)
    requires ReplaysCode(s, e, token)
    ensures Perform(s, e).0 == Answer(Failed(UnknownCode))
    ensures Perform(s, e).1.refreshTokens == s.refreshTokens - {token}
  {}

  /** Without its i-th token, a line keeps a redeemable one exactly when that was not its last and its last is. */
  ghost predicate LeavesLast(t: Refreshes, t': Refreshes, f: string, line: seq<string>, i: nat, now: nat) {
    (exists k :: Redeemable(t', k, now) && t'[k].value.familyId == f) <==>
    i < |line| - 1 && Redeemable(t, line[|line| - 1], now)
  }

  lemma OneRemovedFromLine(t: Refreshes, t': Refreshes, f: string, line: seq<string>, now: nat, ids: set<string>,
                           i: nat)
    requires LineOk(t, f, line, now, ids) && i < |line| && t' == t - {line[i]}
    ensures LeavesLast(t, t', f, line, i, now)
  {
    var last := line[|line| - 1];
    forall k | Redeemable(t', k, now) && t'[k].value.familyId == f
      ensures i < |line| - 1 && Redeemable(t, last, now)
    {
      UnusedIsLast(t, f, line, now, ids, k);
    }
    if i < |line| - 1 && Redeemable(t, last, now) { assert Redeemable(t', last, now); }
  }

  lemma LineInAnyRun(es: seq<Event>, now: nat, f: string)
    requires Orderly(es) && Clock(es) <= now && f in LinesOf(es)
    ensures LineOk(Run(es).refreshTokens, f, LinesOf(es)[f], now, RefreshIds(es))
  {
    RunKeepsOk(es);
    RunKeepsLines(es);
    Later(Run(es).refreshTokens, LinesOf(es), Clock(es), now, RefreshIds(es), FamilyIds(es));
  }

  /** A replayed code takes back exactly the refresh token linked to it: of that token's family, if intact, one can
      still be redeemed exactly when the linked token was rotated away and the last of the line is redeemable. */
  lemma ReplayTakesBackOneToken(es: seq<Event>, e: Event, f: string, i: nat)
    requires Orderly(es) && Clock(es) <= e.now && f in LinesOf(es) && i < |LinesOf(es)[f]|
    requires ReplaysCode(Run(es), e, LinesOf(es)[f][i])
    ensures Perform(Run(es), e).0 == Answer(Failed(UnknownCode))
    ensures Perform(Run(es), e).1.refreshTokens == Run(es).refreshTokens - {LinesOf(es)[f][i]}
    ensures LeavesLast(Run(es).refreshTokens, Perform(Run(es), e).1.refreshTokens, f, LinesOf(es)[f], i, e.now)
  {
    LineInAnyRun(es, e.now, f);
    ReplayRemoves(Run(es), e, LinesOf(es)[f][i]);
    OneRemovedFromLine(Run(es).refreshTokens, Perform(Run(es), e).1.refreshTokens, f, LinesOf(es)[f], e.now,
                       RefreshIds(es), i);
  }
}
