/** A seat at the table and the tiles held there (PlayerModel with the
    actions of PlayerController). */
module Players {
  import opened Wrappers
  import opened Dominoes

  /** PlayerModel: the seat, whether this is the local player, the running
      score, the hand, and the hand positions the server says may be
      played. */
  datatype Player = Player(seatNumber: int, isMe: bool, score: int, hand: seq<Domino>, playableDominoes: seq<int>)

  /** SetHand: the hand is replaced wholesale; nothing else changes. */
  function SetHand(p: Player, hand: seq<Domino>): (r: Player)
    ensures r.hand == hand
    ensures r.seatNumber == p.seatNumber && r.isMe == p.isMe && r.score == p.score
    ensures r.playableDominoes == p.playableDominoes
  {
    p.(hand := hand)
  }

  /** SetPlayableDominoes: the playable positions are replaced; nothing else
      changes. */
  function SetPlayableDominoes(p: Player, playable: seq<int>): (r: Player)
    ensures r.playableDominoes == playable
    ensures r.seatNumber == p.seatNumber && r.isMe == p.isMe && r.score == p.score && r.hand == p.hand
  {
    p.(playableDominoes := playable)
  }

  /** AddDomino: the drawn tile goes to the end of the hand. */
  function AddDomino(p: Player, d: Domino): (r: Player)
    ensures |r.hand| == |p.hand| + 1 && r.hand[..|p.hand|] == p.hand && r.hand[|p.hand|] == d
    ensures multiset(r.hand) == multiset(p.hand) + multiset{d}
    ensures r.seatNumber == p.seatNumber && r.isMe == p.isMe && r.score == p.score
    ensures r.playableDominoes == p.playableDominoes
  {
    p.(hand := p.hand + [d])
  }

  /** Array.filter with "not this tile": every entry equal to `d` (both
      faces, in order) is dropped and the rest keep their order. */
  function Without(hand: seq<Domino>, d: Domino): (r: seq<Domino>)
    ensures d !in r
    ensures forall x :: x != d ==> multiset(r)[x] == multiset(hand)[x]
    ensures |r| + multiset(hand)[d] == |hand|
  {
    if |hand| == 0 then []
    else if hand[0] == d then
      assert hand == [hand[0]] + hand[1..];
      Without(hand[1..], d)
    else
      assert hand == [hand[0]] + hand[1..];
      [hand[0]] + Without(hand[1..], d)
  }

  /** Filtering a concatenation filters each part, so the kept tiles stay in
      their original order. */
  lemma {:induction false} WithoutDistributes(a: seq<Domino>, b: seq<Domino>, d: Domino)
    ensures Without(a + b, d) == Without(a, d) + Without(b, d)
    decreases |a|
  {
    if |a| == 0 {
      assert a + b == b;
    } else {
      assert (a + b)[1..] == a[1..] + b;
      WithoutDistributes(a[1..], b, d);
    }
  }

  /** RemoveDomino: without a tile the first entry of the hand goes (an
      empty hand stays empty); with a tile every equal entry goes and the
      rest keep their order. Nothing but the hand changes. */
  function RemoveDomino(p: Player, desc: Option<Domino>): (r: Player)
    ensures desc.None? && |p.hand| > 0 ==> [p.hand[0]] + r.hand == p.hand
    ensures desc.None? && |p.hand| == 0 ==> r.hand == []
    ensures desc.Some? ==> desc.value !in r.hand
    ensures desc.Some? ==>
              forall x :: x != desc.value ==> multiset(r.hand)[x] == multiset(p.hand)[x]
    ensures r.seatNumber == p.seatNumber && r.isMe == p.isMe && r.score == p.score
    ensures r.playableDominoes == p.playableDominoes
  {
    match desc
    case None => p.(hand := if |p.hand| == 0 then [] else p.hand[1..])
    case Some(d) => p.(hand := Without(p.hand, d))
  }

  /** Drawing a tile and then removing that tile by value leaves the hand
      as removing it would have without the draw. */
  lemma AddThenRemove(p: Player, d: Domino)
    ensures RemoveDomino(AddDomino(p, d), Some(d)).hand == RemoveDomino(p, Some(d)).hand
  {
    WithoutDistributes(p.hand, [d], d);
  }

  /** Removing a tile by value from a hand that already lacks it changes
      nothing, and removing twice is removing once. */
  lemma RemoveIsIdempotent(p: Player, d: Domino)
    ensures d !in p.hand ==> RemoveDomino(p, Some(d)).hand == p.hand
    ensures RemoveDomino(RemoveDomino(p, Some(d)), Some(d)) == RemoveDomino(p, Some(d))
  {
    if d !in p.hand {
      WithoutAbsent(p.hand, d);
    }
    WithoutAbsent(Without(p.hand, d), d);
  }

  lemma {:induction false} WithoutAbsent(hand: seq<Domino>, d: Domino)
    requires d !in hand
    ensures Without(hand, d) == hand
    decreases |hand|
  {
    if |hand| > 0 {
      WithoutAbsent(hand[1..], d);
      assert hand == [hand[0]] + hand[1..];
    }
  }

  /** SetScore: the score becomes the given value; nothing else changes. */
  function SetScore(p: Player, score: int): (r: Player)
    ensures r.score == score
    ensures r.seatNumber == p.seatNumber && r.isMe == p.isMe && r.hand == p.hand
    ensures r.playableDominoes == p.playableDominoes
  {
    p.(score := score)
  }
}
