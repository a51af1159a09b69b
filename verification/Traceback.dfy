/** `_trim_traceback`: drop the library's own frames, and of every run of call-forwarding frames
    keep the first. */
module Traceback {
  /** How a frame is registered; a frame of both lists counts as internal. */
  datatype Kind = Internal | Forwarding | Ordinary

  datatype Frame = Frame(kind: Kind, code: string, line: int)

  /** The linked list of traceback entries. */
  datatype Trace = End | Entry(frame: Frame, next: Trace)

  function Frames(tb: Trace): seq<Frame> {
    if tb.End? then [] else [tb.frame] + Frames(tb.next)
  }

  /** A forwarding frame before position `i` that no ordinary frame separates from it. */
  ghost predicate Shadowed(fs: seq<Frame>, i: nat)
    requires i <= |fs|
  {
    exists j :: 0 <= j < i && fs[j].kind.Forwarding? && forall k :: j < k < i ==> !fs[k].kind.Ordinary?
  }

  /** What stays: ordinary frames, and forwarding frames that are the first of their run. */
  ghost predicate Stays(fs: seq<Frame>, i: nat)
    requires i < |fs|
  {
    fs[i].kind.Ordinary? || (fs[i].kind.Forwarding? && !Shadowed(fs, i))
  }

  /** The frames that stay among the first `n`, in order. */
  ghost function Kept(fs: seq<Frame>, n: nat): seq<Frame>
    requires n <= |fs|
  {
    if n == 0 then [] else Kept(fs, n - 1) + if Stays(fs, n - 1) then [fs[n - 1]] else []
  }

  ghost function Trimmed(fs: seq<Frame>): seq<Frame> {
    Kept(fs, |fs|)
  }

  lemma {:induction false} ShadowedNext(fs: seq<Frame>, n: nat)
    requires n < |fs|
    ensures Shadowed(fs, n + 1) <==> fs[n].kind.Forwarding? || (fs[n].kind.Internal? && Shadowed(fs, n))
  {
    if Shadowed(fs, n) && fs[n].kind.Internal? {
      var j :| 0 <= j < n && fs[j].kind.Forwarding? && forall k :: j < k < n ==> !fs[k].kind.Ordinary?;
      assert fs[j].kind.Forwarding?;
    }
    if Shadowed(fs, n + 1) && !fs[n].kind.Forwarding? {
      var j :| 0 <= j < n + 1 && fs[j].kind.Forwarding? && forall k :: j < k < n + 1 ==> !fs[k].kind.Ordinary?;
      assert j < n && !fs[n].kind.Ordinary?;
    }
  }

  method TrimTraceback(tb: Trace) returns (trimmed: Trace)
    ensures Frames(trimmed) == Trimmed(Frames(tb))
  {
    ghost var fs := Frames(tb);
    ghost var n := 0;
    assert !Shadowed(fs, 0);
    hide Shadowed;
    var kept: seq<Frame> := [];
    var keepCall, rest := true, tb;
    while rest.Entry?
      invariant n <= |fs| && Frames(rest) == fs[n..]
      invariant kept == Kept(fs, n) && keepCall == !Shadowed(fs, n)
      decreases rest
    {
      ShadowedNext(fs, n);
      assert rest.frame == fs[n];
      if rest.frame.kind.Forwarding? {
        if keepCall {
          kept := kept + [rest.frame];
          keepCall := false;
        }
      } else if rest.frame.kind.Ordinary? {
        kept := kept + [rest.frame];
        keepCall := true;
      }
      rest := rest.next;
      n := n + 1;
    }
    trimmed := End;
    var i := |kept|;
    while i > 0
      invariant 0 <= i <= |kept| && Frames(trimmed) == kept[i..]
    {
      i := i - 1;
      trimmed := Entry(kept[i], trimmed);
    }
  }

  // ---------------------------------------------------------------- what trimming does

  /** No internal frame, and between two forwarding frames an ordinary one. */
  ghost predicate Tidy(fs: seq<Frame>) {
    forall i: nat :: i < |fs| ==> Stays(fs, i)
  }

  lemma {:induction false} TidyStays(fs: seq<Frame>, n: nat)
    requires Tidy(fs) && n <= |fs|
    ensures Kept(fs, n) == fs[..n]
  {
    if n > 0 {
      TidyStays(fs, n - 1);
      assert Stays(fs, n - 1);
    }
  }

  lemma {:induction false} NoneAtStart(fs: seq<Frame>)
    ensures !Shadowed(fs, 0)
  {
  }

  lemma {:induction false} ShadowedAgree(a: seq<Frame>, b: seq<Frame>, i: nat)
    requires i <= |a| && i <= |b| && a[..i] == b[..i]
    ensures Shadowed(a, i) <==> Shadowed(b, i)
  {
    assert forall k :: 0 <= k < i ==> a[k] == a[..i][k] && b[k] == b[..i][k];
  }

  lemma {:induction false} TidySnoc(fs: seq<Frame>, f: Frame)
    requires Tidy(fs) && (f.kind.Ordinary? || (f.kind.Forwarding? && !Shadowed(fs, |fs|)))
    ensures Tidy(fs + [f])
  {
    hide Shadowed;
    var more := fs + [f];
    forall i: nat | i < |more| ensures Stays(more, i) {
      assert more[..i] == fs[..i];
      ShadowedAgree(more, fs, i);
      if i < |fs| {
        assert Stays(fs, i);
      }
    }
  }

  /** The kept frames are tidy, and at their end as shadowed as the whole at that place. */
  lemma {:induction false} KeptIsTidy(fs: seq<Frame>, n: nat)
    requires n <= |fs|
    ensures Tidy(Kept(fs, n)) && (Shadowed(Kept(fs, n), |Kept(fs, n)|) <==> Shadowed(fs, n))
  {
    hide Shadowed, Tidy;
    if n == 0 {
      NoneAtStart(fs);
      NoneAtStart([]);
      TidyEmpty();
    } else {
      KeptIsTidy(fs, n - 1);
      ShadowedNext(fs, n - 1);
      if Stays(fs, n - 1) {
        var before, k := Kept(fs, n - 1), Kept(fs, n);
        TidySnoc(before, fs[n - 1]);
        ShadowedNext(k, |before|);
        ShadowedAgree(k, before, |before|);
      } else {
        assert Kept(fs, n) == Kept(fs, n - 1);
      }
    }
  }

  lemma {:induction false} TidyEmpty()
    ensures Tidy([])
  {
  }

  /** Trimming a trimmed traceback changes nothing. */
  lemma {:induction false} TrimTwice(fs: seq<Frame>)
    ensures Tidy(Trimmed(fs)) && Trimmed(Trimmed(fs)) == Trimmed(fs)
  {
    KeptIsTidy(fs, |fs|);
    TidyStays(Trimmed(fs), |Trimmed(fs)|);
  }

  /** Nothing is changed exactly when no frame has to go. */
  lemma {:induction false} UntrimmedIff(fs: seq<Frame>)
    ensures Trimmed(fs) == fs <==> Tidy(fs)
  {
    KeptIsTidy(fs, |fs|);
    if Tidy(fs) {
      TidyStays(fs, |fs|);
    }
  }

  /** `at` picks positions of `fs` in increasing order. */
  ghost predicate Picks(at: seq<nat>, n: nat) {
    (forall i :: 0 <= i < |at| ==> at[i] < n) && forall i, j :: 0 <= i < j < |at| ==> at[i] < at[j]
  }

  /** What remains is an ordered subsequence: the ordinary frames, and the forwarding frames that an
      ordinary one separates from every forwarding frame before. */
  lemma {:induction false} KeptInOrder(fs: seq<Frame>) returns (at: seq<nat>)
    ensures Picks(at, |fs|) && |at| == |Trimmed(fs)|
    ensures forall i :: 0 <= i < |at| ==> Trimmed(fs)[i] == fs[at[i]]
    ensures forall k: nat :: k < |fs| ==>
      (k in at <==> fs[k].kind.Ordinary? || (fs[k].kind.Forwarding? && ForwardsFirst(fs, k)))
  {
    at := KeptAt(fs, |fs|);
    forall k: nat | k < |fs| ensures Shadowed(fs, k) <==> !ForwardsFirst(fs, k) {
    }
  }

  ghost predicate ForwardsFirst(fs: seq<Frame>, k: nat)
    requires k < |fs|
  {
    forall j :: 0 <= j < k && fs[j].kind.Forwarding? ==> exists m :: j < m < k && fs[m].kind.Ordinary?
  }

  lemma {:induction false} KeptAt(fs: seq<Frame>, n: nat) returns (at: seq<nat>)
    requires n <= |fs|
    ensures Picks(at, n) && |at| == |Kept(fs, n)|
    ensures forall i :: 0 <= i < |at| ==> Kept(fs, n)[i] == fs[at[i]]
    ensures forall k: nat :: k < n ==> (k in at <==> Stays(fs, k))
  {
    hide Stays;
    if n == 0 {
      at := [];
    } else {
      at := KeptAt(fs, n - 1);
      if Stays(fs, n - 1) {
        at := at + [n - 1];
      }
    }
  }
}
