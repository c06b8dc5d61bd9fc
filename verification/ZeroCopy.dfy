/** The read buffer of protocol/connection.go with Go's slice semantics: `append` writes in place while
    the capacity lasts and moves to a fresh array otherwise, decoding unmasks in place, and delivered
    payloads are views into the same arrays. */
module ZeroCopy {
  import opened Wire
  import opened Codec
  import opened Reassembly

  datatype View = View(arr: array<byte>, lo: nat, hi: nat)

  /** A payload handed out, with the bytes it held at that moment. */
  datatype Delivery = Delivery(view: View, payload: seq<byte>)

  class ReadBuffer {
    /** readBuf is arr[lo..hi] with capacity up to the end of arr. */
    var arr: array<byte>
    var lo: nat
    var hi: nat
    ghost var delivered: seq<Delivery>

    /** Every payload ever delivered still reads as it did, and none lies where the buffer may write. */
    ghost predicate Valid()
      reads this, arr, set i | 0 <= i < |delivered| :: delivered[i].view.arr
    {
      && lo <= hi <= arr.Length
      && forall i :: 0 <= i < |delivered| ==> Intact(delivered[i]) && (delivered[i].view.arr == arr ==> delivered[i].view.hi <= lo)
    }

    ghost predicate Intact(d: Delivery)
      reads d.view.arr
    {
      d.view.lo <= d.view.hi <= d.view.arr.Length && d.view.arr[d.view.lo..d.view.hi] == d.payload
    }

    ghost function Contents(): seq<byte>
      requires lo <= hi <= arr.Length
      reads this, arr
    {
      arr[lo..hi]
    }

    constructor ()
      ensures Valid() && fresh(arr) && Contents() == [] && delivered == []
    {
      arr := new byte[0];
      lo, hi := 0, 0;
      delivered := [];
    }

    /** readBuf = append(readBuf, raw...); `spare` is the extra capacity Go's growth adds. */
    method Append(raw: seq<byte>, spare: nat)
      requires Valid()
      modifies this, arr
      ensures Valid() && (arr == old(arr) || fresh(arr))
      ensures Contents() == old(Contents()) + raw && delivered == old(delivered)
    {
      if hi + |raw| <= arr.Length {
        CopyInto(arr, hi, raw);
        forall i | 0 <= i < |delivered| && delivered[i].view.arr == arr ensures Intact(delivered[i]) {
          KeptSlice(old(arr[..]), arr[..], hi, hi + |raw|, delivered[i].view.lo, delivered[i].view.hi);
        }
        hi := hi + |raw|;
        TwoParts(arr[lo..hi], old(arr[lo..hi]), raw);
      } else {
        var bigger := Grown(arr[lo..hi], raw, spare);
        arr, lo, hi := bigger, 0, hi - lo + |raw|;
      }
    }

    method Grown(front: seq<byte>, raw: seq<byte>, spare: nat) returns (bigger: array<byte>)
      ensures fresh(bigger) && bigger.Length == |front| + |raw| + spare && bigger[0..|front| + |raw|] == front + raw
    {
      bigger := new byte[|front| + |raw| + spare];
      CopyInto(bigger, 0, front);
      CopyInto(bigger, |front|, raw);
      TwoParts(bigger[0..|front| + |raw|], front, raw);
    }

    /** Decode the first frame, deliver its payload as a view and advance past it. */
    method Next() returns (d: Decoding)
      requires Valid()
      modifies this, arr
      ensures Valid() && arr == old(arr)
      ensures d == Decode(old(Contents()))
      ensures d.Decoded? ==> Contents() == old(Contents())[d.consumed..]
      ensures d.Decoded? ==> exists v: View :: v.arr == arr && v.hi == lo && delivered == old(delivered) + [Delivery(v, d.frame.payload)]
      ensures !d.Decoded? ==> Contents() == old(Contents()) && delivered == old(delivered)
    {
      var from;
      d, from := DecodeFront();
      if d.Decoded? {
        lo := lo + d.consumed;
        ghost var v := View(arr, from, lo);
        delivered := delivered + [Delivery(v, d.frame.payload)];
      }
    }

    /** The decoder's writes stay inside the buffer, so they miss every delivered payload. */
    method DecodeGuarded() returns (d: Decoding)
      requires Valid()
      modifies arr
      ensures Valid() && d == Decode(old(Contents()))
      ensures !d.Decoded? ==> arr[..] == old(arr[..])
      ensures d.Decoded? ==> var to := lo + d.consumed; var from := to - |d.frame.payload|;
        lo <= from <= to <= hi && arr[from..to] == d.frame.payload && Elsewhere(old(arr[..]), arr[..], from, to)
    {
      d := DecodeInPlace(arr, lo, hi);
      forall i | 0 <= i < |delivered| && delivered[i].view.arr == arr ensures Intact(delivered[i]) {
        KeptSlice(old(arr[..]), arr[..], lo, hi, delivered[i].view.lo, delivered[i].view.hi);
      }
    }

    method DecodeFront() returns (d: Decoding, from: nat)
      requires Valid()
      modifies arr
      ensures Valid() && d == Decode(old(Contents()))
      ensures d.Decoded? ==> var to := lo + d.consumed;
        lo <= from <= to <= hi && arr[from..to] == d.frame.payload && arr[to..hi] == old(Contents())[d.consumed..]
      ensures !d.Decoded? ==> Contents() == old(Contents())
    {
      d := DecodeGuarded();
      from := lo;
      if d.Decoded? {
        from := lo + d.consumed - |d.frame.payload|;
        KeptTail(old(arr[..]), arr[..], lo, hi, from, lo + d.consumed);
      } else {
        SameSlice(old(arr[..]), arr[..], lo, hi);
      }
    }

    /** if len(readBuf) == 0 { readBuf = nil } */
    method DropIfEmpty()
      requires Valid()
      modifies this
      ensures Valid() && (arr == old(arr) || fresh(arr))
      ensures Contents() == old(Contents()) && delivered == old(delivered)
    {
      if lo == hi {
        arr := new byte[0];
        lo, hi := 0, 0;
      }
    }

    /** One round of the receive loop on the real memory: what is delivered is the stream's frames, each
        payload readable where it lies, and everything delivered before is as it was. */
    method Round(raws: seq<seq<byte>>, spare: nat) returns (stop: Stop)
      requires Valid()
      modifies this, arr
      ensures Valid() && (arr == old(arr) || fresh(arr))
      ensures var d := Unframe(old(Contents()) + Flatten(raws));
        && Contents() == d.rest && stop == d.stop && old(delivered) <= delivered
        && Carries(delivered, |old(delivered)|, d.frames)
    {
      AppendAll(raws, spare);
      assert [] + Unframe(Contents()).frames == Unframe(Contents()).frames;
      stop := DeliverAll(Unframe(Contents()), [], delivered);
      DropIfEmpty();
    }

    /** Any number of rounds, one after the other. */
    method ReceiveRounds(recvs: seq<seq<seq<byte>>>, spare: nat) returns (stop: Stop)
      requires Valid()
      modifies this, arr
      ensures Valid() && (arr == old(arr) || fresh(arr))
      ensures var f := UnframeAll(old(Contents()), Map(Flatten, recvs));
        && Contents() == f.rest && stop == f.stop && old(delivered) <= delivered
        && Carries(delivered, |old(delivered)|, f.frames)
      decreases |recvs|
    {
      stop := NeedMore;
      if recvs != [] {
        assert Map(Flatten, recvs)[1..] == Map(Flatten, recvs[1..]);
        ghost var before, first := delivered, Unframe(Contents() + Flatten(recvs[0]));
        stop := Round(recvs[0], spare);
        if stop == NeedMore {
          ghost var middle, rest := delivered, UnframeAll(Contents(), Map(Flatten, recvs[1..]));
          stop := ReceiveRounds(recvs[1..], spare);
          CarriesOn(middle, delivered, |before|, first.frames, rest.frames);
        }
      }
    }

    /** The payloads delivered are those of the uncut stream's frames, in order, and at the end every one of
        them, early or late, still reads as it did when it was handed out. */
    method ReceiveAll(recvs: seq<seq<seq<byte>>>, spare: nat) returns (stop: Stop)
      requires Valid()
      modifies this, arr
      ensures Valid() && (arr == old(arr) || fresh(arr))
      ensures var f := UnframeAll(old(Contents()), Map(Flatten, recvs));
        && Contents() == f.rest && stop == f.stop && old(delivered) <= delivered
        && Carries(delivered, |old(delivered)|, f.frames)
      ensures PrefixStable(Decode) && (Settled(Decode, old(Contents())) ==>
        var d := Unframe(old(Contents()) + Flatten(Map(Flatten, recvs)));
        Carries(delivered, |old(delivered)|, d.frames) && stop == d.stop && (stop == NeedMore ==> Contents() == d.rest))
    {
      DecodeIsPrefixStable();
      if Settled(Decode, Contents()) { FeedIsDrain(Decode, Contents(), Map(Flatten, recvs)); }
      stop := ReceiveRounds(recvs, spare);
    }

    method AppendAll(raws: seq<seq<byte>>, spare: nat)
      requires Valid()
      modifies this, arr
      ensures Valid() && (arr == old(arr) || fresh(arr)) && delivered == old(delivered)
      ensures Contents() == old(Contents()) + Flatten(raws)
    {
      var i := 0;
      while i < |raws|
        invariant i <= |raws| && Valid() && (arr == old(arr) || fresh(arr)) && delivered == old(delivered)
        invariant Contents() + Flatten(raws[i..]) == old(Contents()) + Flatten(raws)
      {
        AppendNext(Contents(), raws, i);
        Append(raws[i], spare);
        i := i + 1;
      }
    }

    /** The drain loop, in the state it has after delivering `done` of the frames of `all`. */
    method DeliverAll(ghost all: Drained, ghost done: seq<Frame>, ghost before: seq<Delivery>) returns (stop: Stop)
      requires Valid() && Onto(done, Unframe(Contents())) == all
      requires before <= delivered && Carries(delivered, |before|, done)
      modifies this, arr
      ensures Valid() && arr == old(arr) && Contents() == all.rest && stop == all.stop
      ensures before <= delivered && Carries(delivered, |before|, all.frames)
      decreases hi - lo
    {
      DecodeIsPrefixStable();
      DrainNext(Decode, Contents(), done, all);
      ghost var was := delivered;
      var d := Next();
      if d.Decoded? {
        CarriesNext(was, delivered, |before|, done, d.frame);
        stop := DeliverAll(all, done + [d.frame], before);
      } else {
        stop := StopOf(d);
      }
    }
  }

  lemma CarriesNext(ds: seq<Delivery>, ds': seq<Delivery>, n: nat, frames: seq<Frame>, f: Frame)
    requires Carries(ds, n, frames) && |ds'| == |ds| + 1 && ds <= ds' && ds'[|ds|].payload == f.payload
    ensures Carries(ds', n, frames + [f])
  {
    assert forall i :: 0 <= i < |ds| ==> ds'[i] == ds[i];
  }

  /** From index n on, the deliveries carry exactly the payloads of these frames. */
  ghost predicate Carries(ds: seq<Delivery>, n: nat, frames: seq<Frame>) {
    |ds| == n + |frames| && forall i :: 0 <= i < |frames| ==> ds[n + i].payload == frames[i].payload
  }

  lemma CarriesOn(ds: seq<Delivery>, ds': seq<Delivery>, n: nat, a: seq<Frame>, b: seq<Frame>)
    requires ds <= ds' && Carries(ds, n, a) && Carries(ds', |ds|, b)
    ensures Carries(ds', n, a + b)
  {
    assert forall i :: 0 <= i < |ds| ==> ds'[i] == ds[i];
  }

  lemma SameSlice(before: seq<byte>, after: seq<byte>, lo: nat, hi: nat)
    requires before == after && lo <= hi <= |before|
    ensures after[lo..hi] == before[lo..hi]
  {
  }

  lemma KeptTail(before: seq<byte>, after: seq<byte>, lo: nat, hi: nat, from: nat, to: nat)
    requires Elsewhere(before, after, from, to) && lo <= to <= hi <= |before|
    ensures after[to..hi] == before[lo..hi][to - lo..]
  {
  }

  lemma KeptSlice(before: seq<byte>, after: seq<byte>, from: nat, to: nat, lo: nat, hi: nat)
    requires Elsewhere(before, after, from, to) && lo <= hi <= from && hi <= |before|
    ensures after[lo..hi] == before[lo..hi]
  {
  }
}
