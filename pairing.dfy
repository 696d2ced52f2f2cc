/**
  Pairwise room naming (CallActivity.onCreate). A participant in slot `userID`
  joins one room per other slot; the room id is the base room id followed by the two
  slot digits, smaller first, so both ends of a pair derive the same room.
 */
module Pairing {

  import opened Wrappers

  /** The slots of the fixed nine-party mesh. */
  predicate IsSlot(n: int) { 1 <= n <= 9 }

  /** The decimal digit of a slot. */
  function Digit(n: int): (d: char)
    requires IsSlot(n)
    ensures '1' <= d <= '9'
  {
    (('0' as int) + n) as char
  }

  /** Decimal rendering of the unordered pair {a, b}: smaller slot first. */
  function PairSuffix(a: int, b: int): (s: string)
    requires IsSlot(a) && IsSlot(b)
    ensures |s| == 2
  {
    if a <= b then [Digit(a), Digit(b)] else [Digit(b), Digit(a)]
  }

  /** The eight other slots of `u`, in ascending order. */
  function PeerSlots(u: int): (ps: seq<int>)
    requires IsSlot(u)
    ensures |ps| == 8
  {
    seq(8, k => if k + 1 < u then k + 1 else k + 2)
  }

  /** Position of peer `p` among the peers of `u`. */
  function PeerIndex(u: int, p: int): (k: nat)
    requires IsSlot(u) && IsSlot(p) && u != p
    ensures k < 8
  {
    if p < u then p - 1 else p - 2
  }

  /**
    The eight room ids of slot `userID` under base id `roomID`: one per other slot,
    in ascending slot order; none at all (eight nulls) when `userID` is not a slot.
   */
  function PairRooms(roomID: string, userID: int): (rooms: seq<Option<string>>)
    ensures |rooms| == 8
  {
    if IsSlot(userID) then
      seq(8, k requires 0 <= k < 8 => Some(roomID + PairSuffix(userID, PeerSlots(userID)[k])))
    else
      seq(8, k => None)
  }

  /** The `switch (userID)` of CallActivity.onCreate, case by case as written there. */
  function RoomTable(roomID: string, userID: int): (rooms: seq<Option<string>>)
    ensures |rooms| == 8
  {
    var r := roomID;
    match userID
    case 1 => [Some(r + "12"), Some(r + "13"), Some(r + "14"), Some(r + "15"),
               Some(r + "16"), Some(r + "17"), Some(r + "18"), Some(r + "19")]
    case 2 => [Some(r + "12"), Some(r + "23"), Some(r + "24"), Some(r + "25"),
               Some(r + "26"), Some(r + "27"), Some(r + "28"), Some(r + "29")]
    case 3 => [Some(r + "13"), Some(r + "23"), Some(r + "34"), Some(r + "35"),
               Some(r + "36"), Some(r + "37"), Some(r + "38"), Some(r + "39")]
    case 4 => [Some(r + "14"), Some(r + "24"), Some(r + "34"), Some(r + "45"),
               Some(r + "46"), Some(r + "47"), Some(r + "48"), Some(r + "49")]
    case 5 => [Some(r + "15"), Some(r + "25"), Some(r + "35"), Some(r + "45"),
               Some(r + "56"), Some(r + "57"), Some(r + "58"), Some(r + "59")]
    case 6 => [Some(r + "16"), Some(r + "26"), Some(r + "36"), Some(r + "46"),
               Some(r + "56"), Some(r + "67"), Some(r + "68"), Some(r + "69")]
    case 7 => [Some(r + "17"), Some(r + "27"), Some(r + "37"), Some(r + "47"),
               Some(r + "57"), Some(r + "67"), Some(r + "78"), Some(r + "79")]
    case 8 => [Some(r + "18"), Some(r + "28"), Some(r + "38"), Some(r + "48"),
               Some(r + "58"), Some(r + "68"), Some(r + "78"), Some(r + "89")]
    case 9 => [Some(r + "19"), Some(r + "29"), Some(r + "39"), Some(r + "49"),
               Some(r + "59"), Some(r + "69"), Some(r + "79"), Some(r + "89")]
    case _ => [None, None, None, None, None, None, None, None]
  }

  /** The peers of `u` are exactly the other slots, strictly ascending, and PeerIndex finds each. */
  lemma PeerSlotsAreTheOthers(u: int)
    requires IsSlot(u)
    ensures forall p :: p in PeerSlots(u) <==> IsSlot(p) && p != u
    ensures forall i, j :: 0 <= i < j < 8 ==> PeerSlots(u)[i] < PeerSlots(u)[j]
    ensures forall p :: IsSlot(p) && p != u ==> PeerSlots(u)[PeerIndex(u, p)] == p
  {
    forall p | IsSlot(p) && p != u ensures p in PeerSlots(u) {
      assert PeerSlots(u)[PeerIndex(u, p)] == p;
    }
  }

  /** The hard-coded table is the pairwise scheme, for every slot and every other input alike. */
  lemma TableIsPairwise(roomID: string, userID: int)
    ensures RoomTable(roomID, userID) == PairRooms(roomID, userID)
  {
    if IsSlot(userID) {
      var t, p := RoomTable(roomID, userID), PairRooms(roomID, userID);
      forall k | 0 <= k < 8 ensures t[k] == p[k] {
        var q := PeerSlots(userID)[k];
        assert p[k] == Some(roomID + PairSuffix(userID, q));
        if userID < q {
          assert PairSuffix(userID, q) == [Digit(userID), Digit(q)];
        } else {
          assert PairSuffix(userID, q) == [Digit(q), Digit(userID)];
        }
      }
    }
  }

  /** Room k of slot u is the base id followed by the digits of u and its k-th peer, smaller first. */
  lemma RoomAt(roomID: string, u: int, k: int)
    requires IsSlot(u) && 0 <= k < 8
    ensures var p := PeerSlots(u)[k];
      && IsSlot(p) && p != u
      && PairRooms(roomID, u)[k] == Some(roomID + [Digit(if u < p then u else p), Digit(if u < p then p else u)])
  {
  }

  /** A slot outside 1..9, the default 0 included, derives no room at all. */
  lemma NoSlotNoRooms(roomID: string, userID: int)
    requires !IsSlot(userID)
    ensures forall k :: 0 <= k < 8 ==> RoomTable(roomID, userID)[k] == None
  {
  }

  /** Both ends of a pair derive the same room for each other. */
  lemma PairRoomsSymmetric(roomID: string, u: int, p: int)
    requires IsSlot(u) && IsSlot(p) && u != p
    ensures RoomTable(roomID, u)[PeerIndex(u, p)] == RoomTable(roomID, p)[PeerIndex(p, u)]
    ensures RoomTable(roomID, u)[PeerIndex(u, p)] == Some(roomID + PairSuffix(u, p))
  {
    TableIsPairwise(roomID, u);
    TableIsPairwise(roomID, p);
    PeerSlotsAreTheOthers(u);
    PeerSlotsAreTheOthers(p);
  }

  /** Two pair suffixes agree only for the same unordered pair. */
  lemma SuffixInjective(a: int, b: int, c: int, d: int)
    requires IsSlot(a) && IsSlot(b) && IsSlot(c) && IsSlot(d)
    requires PairSuffix(a, b) == PairSuffix(c, d)
    ensures (a == c && b == d) || (a == d && b == c)
  {
    var s, t := PairSuffix(a, b), PairSuffix(c, d);
    assert s[0] == t[0] && s[1] == t[1];
  }

  /** Appending distinct suffixes to one base id gives distinct room ids. */
  lemma BaseCancels(roomID: string, s: string, t: string)
    requires roomID + s == roomID + t
    ensures s == t
  {
    assert s == (roomID + s)[|roomID|..];
    assert t == (roomID + t)[|roomID|..];
  }

  /** The eight rooms of one slot are pairwise distinct. */
  lemma RoomsDistinct(roomID: string, u: int)
    requires IsSlot(u)
    ensures forall i, j :: 0 <= i < j < 8 ==> RoomTable(roomID, u)[i] != RoomTable(roomID, u)[j]
  {
    TableIsPairwise(roomID, u);
    PeerSlotsAreTheOthers(u);
    var rooms := PairRooms(roomID, u);
    forall i, j | 0 <= i < j < 8 ensures rooms[i] != rooms[j] {
      var p, q := PeerSlots(u)[i], PeerSlots(u)[j];
      if rooms[i] == rooms[j] {
        BaseCancels(roomID, PairSuffix(u, p), PairSuffix(u, q));
        SuffixInjective(u, p, u, q);
        assert false;
      }
    }
  }

  /** Within one call, rooms of two different pairs never coincide. */
  lemma PairsDoNotCollide(roomID: string, u: int, p: int, v: int, q: int)
    requires IsSlot(u) && IsSlot(p) && IsSlot(v) && IsSlot(q) && u != p && v != q
    requires RoomTable(roomID, u)[PeerIndex(u, p)] == RoomTable(roomID, v)[PeerIndex(v, q)]
    ensures (u == v && p == q) || (u == q && p == v)
  {
    PairRoomsSymmetric(roomID, u, p);
    PairRoomsSymmetric(roomID, v, q);
    BaseCancels(roomID, PairSuffix(u, p), PairSuffix(v, q));
    SuffixInjective(u, p, v, q);
  }
}
