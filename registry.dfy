/**
 * PlayerRegistry: the game-wide list of player transforms. A player adds
 * itself when enabled (unless already listed) and removes itself when
 * disabled.
 */
module Registry {

  predicate NoDup(s: seq<nat>)
  {
    forall i, j :: 0 <= i < j < |s| ==> s[i] != s[j]
  }

  /** List.Remove: drop the first occurrence of x, if any, keeping the rest in order. */
  function RemoveFirst(s: seq<nat>, x: nat): (r: seq<nat>)
    ensures x !in s ==> r == s
    ensures x in s ==> |r| == |s| - 1
    ensures forall y :: y in r ==> y in s
  {
    if |s| == 0 then []
    else if s[0] == x then s[1..]
    else [s[0]] + RemoveFirst(s[1..], x)
  }

  /** List.IndexOf: the first position holding x. */
  function IndexOf(s: seq<nat>, x: nat): (i: nat)
    requires x in s
    ensures i < |s| && s[i] == x && x !in s[..i]
  {
    if s[0] == x then 0 else 1 + IndexOf(s[1..], x)
  }

  /** RemoveFirst takes out exactly one position: the first holding x. */
  lemma {:induction false} RemoveFirstAt(s: seq<nat>, x: nat)
    requires x in s
    ensures RemoveFirst(s, x) == s[..IndexOf(s, x)] + s[IndexOf(s, x) + 1..]
  {
    if s[0] != x {
      var t := s[1..];
      RemoveFirstAt(t, x);
      var i := IndexOf(t, x);
      calc {
        RemoveFirst(s, x);
        [s[0]] + (t[..i] + t[i + 1..]);
        { assert [s[0]] + t[..i] == s[..i + 1]; assert t[i + 1..] == s[i + 2..]; }
        s[..i + 1] + s[i + 2..];
      }
    }
  }

  /** Removing from a duplicate-free list leaves it duplicate-free and without x. */
  lemma {:induction false} RemoveFirstNoDup(s: seq<nat>, x: nat)
    requires NoDup(s)
    ensures NoDup(RemoveFirst(s, x))
    ensures x !in RemoveFirst(s, x)
  {
    if |s| > 0 && s[0] != x {
      RemoveFirstNoDup(s[1..], x);
      assert s[0] !in s[1..];
      assert s[0] !in RemoveFirst(s[1..], x);
    }
  }

  class PlayerRegistry {
    var players: seq<nat>

    /** The list never lists one transform twice. */
    ghost predicate Valid()
      reads this
    {
      NoDup(players)
    }

    constructor ()
      ensures Valid() && players == []
    {
      players := [];
    }

    /** Adds `t` at the end unless it is already listed; the others stay as they were. */
    method OnEnable(t: nat)
      requires Valid()
      modifies this
      ensures Valid() && t in players
      ensures t in old(players) ==> players == old(players)
      ensures t !in old(players) ==> players == old(players) + [t]
    {
      if t !in players {
        players := players + [t];
      }
    }

    /** Removes `t` (its first, and in a valid registry only, occurrence); the others keep their order. */
    method OnDisable(t: nat)
      requires Valid()
      modifies this
      ensures Valid() && t !in players
      ensures t !in old(players) ==> players == old(players)
      ensures t in old(players) ==>
        var i := IndexOf(old(players), t); players == old(players)[..i] + old(players)[i + 1..]
    {
      RemoveFirstNoDup(players, t);
      if t in players {
        RemoveFirstAt(players, t);
      }
      players := RemoveFirst(players, t);
    }
  }
}
