/** What an object is: chunks of known size, whose contents in order are its bytes. */
module Objects {
  import opened KeyOrder
  import Crc

  /** Where one chunk is, and the size and checksum its bytes must have. */
  datatype ChunkRef = ChunkRef(id: string, size: nat, crc: Crc.Word)

  /** The pieces joined end to end. */
  function Joined(pieces: seq<seq<byte>>): seq<byte> {
    if pieces == [] then [] else Joined(pieces[..|pieces| - 1]) + pieces[|pieces| - 1]
  }

  lemma JoinedSnoc(pieces: seq<seq<byte>>, last: seq<byte>)
    ensures Joined(pieces + [last]) == Joined(pieces) + last
  {
    assert (pieces + [last])[..|pieces|] == pieces;
  }

  lemma {:induction false} JoinedConcat(a: seq<seq<byte>>, b: seq<seq<byte>>)
    ensures Joined(a + b) == Joined(a) + Joined(b)
  {
    if b == [] {
      assert a + b == a;
    } else {
      var all, front := a + b, b[..|b| - 1];
      assert all[..|all| - 1] == a + front && all[|all| - 1] == b[|b| - 1];
      JoinedConcat(a, front);
      assert Joined(a) + Joined(front) + b[|b| - 1] == Joined(a) + (Joined(front) + b[|b| - 1]);
    }
  }

  lemma JoinedCons(first: seq<byte>, rest: seq<seq<byte>>)
    ensures Joined([first] + rest) == first + Joined(rest)
  {
    JoinedConcat([first], rest);
    JoinedSnoc([], first);
    assert [] + [first] == [first] && [] + first == first;
  }

  lemma JoinedNext(pieces: seq<seq<byte>>, i: nat)
    requires i < |pieces|
    ensures Joined(pieces[..i + 1]) == Joined(pieces[..i]) + pieces[i]
  {
    assert pieces[..i + 1][..i] == pieces[..i];
  }

  /** The first pieces are the front of the whole. */
  lemma JoinedPrefix(pieces: seq<seq<byte>>, i: nat)
    requires i <= |pieces|
    ensures Joined(pieces) == Joined(pieces[..i]) + Joined(pieces[i..])
  {
    assert pieces == pieces[..i] + pieces[i..];
    JoinedConcat(pieces[..i], pieces[i..]);
  }
}
