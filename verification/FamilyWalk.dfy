/** The bounded walk that revokes a token family (src/store.rs:264-275, src/firestore_store.rs:344-362),
    on nothing but the successor links of the stored tokens. */
module FamilyWalk {
  import opened Documents

  const WALK_LIMIT := 64

  /** Every stored token and the token that replaced it, if any. Any graph, cyclic ones included. */
  type Links = map<string, Option<string>>

  /** What is left after at most `left` more removals, starting at `cur`. */
  function WalkFrom(links: Links, cur: Option<string>, left: nat): Links
    decreases left
  {
    if left == 0 || cur.None? || cur.value !in links then links
    else WalkFrom(links - {cur.value}, links[cur.value], left - 1)
  }

  /** The tokens met by following links from `cur`, each once, until a missing token or a repetition. */
  function Chain(links: Links, cur: Option<string>): seq<string>
    decreases links.Keys
  {
    if cur.None? || cur.value !in links then []
    else
      var rest := links - {cur.value};
      assert rest.Keys < links.Keys;
      [cur.value] + Chain(rest, links[cur.value])
  }

  function Least(a: nat, b: nat): nat {
    if a < b then a else b
  }

  function Elements(s: seq<string>): set<string> {
    set i | 0 <= i < |s| :: s[i]
  }

  /** The walk removes exactly the first min(limit, n) tokens of the n-token chain, on every link graph. */
  lemma {:induction false} WalkRemovesPrefix(links: Links, cur: Option<string>, left: nat)
    ensures var chain := Chain(links, cur);
      WalkFrom(links, cur, left) == links - Elements(chain[..Least(left, |chain|)])
    decreases left
  {
    var chain := Chain(links, cur);
    if left == 0 || cur.None? || cur.value !in links {
      assert chain[..Least(left, |chain|)] == [];
    } else {
      var t, rest := cur.value, links - {cur.value};
      var tail := Chain(rest, links[t]);
      WalkRemovesPrefix(rest, links[t], left - 1);
      var gone := chain[..Least(left, |chain|)];
      assert gone == [t] + tail[..Least(left - 1, |tail|)];
      assert Elements(gone) == {t} + Elements(tail[..Least(left - 1, |tail|)]) by {
        assert forall x :: x in Elements(gone) <==> x in gone;
      }
    }
  }

  /** Following links from a listed path meets the listed tokens first. */
  lemma {:induction false} ChainFollowsPath(links: Links, path: seq<string>)
    requires path != [] && forall i, j :: 0 <= i < j < |path| ==> path[i] != path[j]
    requires forall i :: 0 <= i < |path| ==> path[i] in links
    requires forall i :: 0 <= i < |path| - 1 ==> links[path[i]] == Some(path[i + 1])
    requires links[path[|path| - 1]].None? || links[path[|path| - 1]].value !in links
    ensures Chain(links, Some(path[0])) == path
    decreases |path|
  {
    var rest, tail := links - {path[0]}, path[1..];
    if tail == [] {
      assert Chain(rest, links[path[0]]) == [];
    } else {
      ChainFollowsPath(rest, tail);
    }
  }
}
