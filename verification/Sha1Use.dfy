/** The calling sequence of sha1.h: Reset, any number of Inputs, Result. */
module Sha1Use {
  import opened Bytes
  import opened Fips180
  import opened Sha1

  function Concat(pieces: seq<seq<Octet>>): seq<Octet> {
    if pieces == [] then [] else Concat(pieces[..|pieces| - 1]) + pieces[|pieces| - 1]
  }

  /** The context has taken the octets of `m` and no more, or was marked for their number. */
  ghost predicate Follows(context: Context, m: seq<Octet>)
    reads context, context.digest, context.block
  {
    context.Shaped() && !context.computed && if 8 * |m| < W32 * W32 then context.Holds(m) else context.corrupted
  }

  method TakePiece(context: Context, piece: seq<Octet>, ghost m: seq<Octet>)
    requires Follows(context, m)
    modifies context, context.digest, context.block
    ensures Follows(context, m + piece)
  {
    hide *;
    FollowsIs(context, m);
    context.Input(piece, m);
    assert piece == [] ==> m + piece == m;
    FollowsIs(context, m + piece);
  }

  lemma FollowsIs(context: Context, m: seq<Octet>)
    ensures Follows(context, m)
       <==> context.Shaped() && !context.computed && if 8 * |m| < W32 * W32 then context.Holds(m) else context.corrupted
    ensures context.Holds(m) ==> !context.corrupted
  {
    hide HashBlocks;
  }

  /** The calls of SHA1Input. */
  method TakeAll(context: Context, pieces: seq<seq<Octet>>)
    requires Follows(context, [])
    modifies context, context.digest, context.block
    ensures Follows(context, Concat(pieces))
  {
    hide *;
    EmptyConcat(pieces);
    var i := 0;
    while i < |pieces|
      invariant 0 <= i <= |pieces| && Follows(context, Concat(pieces[..i]))
    {
      ConcatStep(pieces, i);
      TakePiece(context, pieces[i], Concat(pieces[..i]));
      i := i + 1;
    }
    assert pieces[..i] == pieces;
  }

  /** The call of SHA1Result. */
  method TakeResult(context: Context, ghost m: seq<Octet>) returns (ok: bool, words: seq<Word>)
    requires Follows(context, m)
    modifies context, context.digest, context.block
    ensures ok <==> 8 * |m| < W32 * W32
    ensures ok ==> words == Digest(m).Words()
  {
    hide *;
    FollowsIs(context, m);
    ok := context.Result(m);
    DigestLength(context);
    words := [context.digest[0], context.digest[1], context.digest[2], context.digest[3], context.digest[4]];
    CurrentWords(context);
  }

  /** However a message is cut into SHA1Input calls (empty ones included), SHA1Result succeeds exactly
      when the message is shorter than 2^64 bits, and the digest is that of the whole message. */
  method HashPieces(pieces: seq<seq<Octet>>) returns (ok: bool, words: seq<Word>)
    ensures ok <==> 8 * |Concat(pieces)| < W32 * W32
    ensures ok ==> words == Digest(Concat(pieces)).Words()
  {
    var context := new Context();
    hide *;
    FreshHolds(context);
    TakeAll(context, pieces);
    ok, words := TakeResult(context, Concat(pieces));
  }

  lemma EmptyConcat(pieces: seq<seq<Octet>>)
    ensures Concat(pieces[..0]) == []
  {
  }

  lemma ConcatStep(pieces: seq<seq<Octet>>, i: nat)
    requires i < |pieces|
    ensures Concat(pieces[..i + 1]) == Concat(pieces[..i]) + pieces[i]
  {
    assert pieces[..i + 1][..i] == pieces[..i];
  }

  lemma FreshHolds(context: Context)
    requires context.Holds([])
    ensures Follows(context, [])
  {
    hide HashBlocks;
  }

  lemma DigestLength(context: Context)
    requires context.Shaped()
    ensures context.digest.Length == 5
  {
  }

  lemma CurrentWords(context: Context)
    requires context.Shaped()
    ensures context.Current().Words()
         == [context.digest[0], context.digest[1], context.digest[2], context.digest[3], context.digest[4]]
  {
  }
}
