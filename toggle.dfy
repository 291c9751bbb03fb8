/** The check-then-flip primitive behind the like and follow toggles, and
    what it does to the derived likes_count and is_liked. */
module Toggle {
  import opened Schema

  /** Removes `x` when it is present and inserts it when it is absent. */
  function Flip<T>(s: set<T>, x: T): (r: set<T>)
    ensures x in r <==> x !in s
    ensures r - {x} == s - {x}
  {
    if x in s then s - {x} else s + {x}
  }

  /** A second toggle undoes the first. */
  lemma FlipTwice<T>(s: set<T>, x: T)
    ensures Flip(Flip(s, x), x) == s
  {
  }

  /** `n` toggles in a row. */
  function FlipN<T>(s: set<T>, x: T, n: nat): set<T> {
    if n == 0 then s else Flip(FlipN(s, x, n - 1), x)
  }

  /** Toggling alternates: after an even number of toggles the set is as
      it was, after an odd number it is one toggle away. */
  lemma {:induction false} FlipNAlternates<T>(s: set<T>, x: T, n: nat)
    ensures FlipN(s, x, n) == if n % 2 == 0 then s else Flip(s, x)
  {
    if n > 0 {
      FlipNAlternates(s, x, n - 1);
      if (n - 1) % 2 == 1 {
        FlipTwice(s, x);
      }
    }
  }

  /** Toggling user `u`'s like on track `t` moves the like count of `t` by
      exactly one, in the direction of the new state, and leaves every
      other track's count alone. */
  lemma LikesCountAfterFlip(likes: set<Like>, u: Uid, t: TrackId, other: TrackId)
    ensures LikesCount(Flip(likes, Like(u, t)), t) ==
              if Like(u, t) in likes then LikesCount(likes, t) - 1 else LikesCount(likes, t) + 1
    ensures other != t ==> LikesCount(Flip(likes, Like(u, t)), other) == LikesCount(likes, other)
  {
    var flipped := Flip(likes, Like(u, t));
    if Like(u, t) in likes {
      assert Likers(flipped, t) == Likers(likes, t) - {u};
    } else {
      assert Likers(flipped, t) == Likers(likes, t) + {u};
    }
    assert other != t ==> Likers(flipped, other) == Likers(likes, other);
  }
}
