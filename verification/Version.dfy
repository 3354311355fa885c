// Compaction of a version log (runtime/version.c): keep the newest entries of every row.
module Versions {
  // A log entry: the row it belongs to and the rest of its bytes.
  datatype Version = Version(sid: int, rest: seq<int>)

  function Times(es: seq<Version>, sid: int): nat {
    if |es| == 0 then 0 else Times(es[1..], sid) + if es[0].sid == sid then 1 else 0
  }

  // How many later entries share entry i's row.
  function Later(es: seq<Version>, i: nat): nat
    requires i < |es|
  {
    Times(es[i + 1..], es[i].sid)
  }

  // The entries with fewer than n later ones of the same row, in order.
  function Kept(es: seq<Version>, n: nat): seq<Version> {
    if |es| == 0 then []
    else (if Times(es[1..], es[0].sid) < n then [es[0]] else []) + Kept(es[1..], n)
  }

  // The places of a row's entries from i on.
  ghost function Places(es: seq<Version>, i: nat, sid: int): set<int> {
    set j | i <= j < |es| && es[j].sid == sid
  }

  // Times counts the entries of a row.
  lemma {:induction false} TimesMeaning(es: seq<Version>, i: nat, sid: int)
    requires i <= |es|
    ensures Times(es[i..], sid) == |Places(es, i, sid)|
    decreases |es| - i
  {
    if i < |es| {
      TimesMeaning(es, i + 1, sid);
      assert es[i..][1..] == es[i + 1..];
      assert Places(es, i, sid) == Places(es, i + 1, sid) + if es[i].sid == sid then {i as int} else {};
    } else {
      assert Places(es, i, sid) == {};
    }
  }

  // What is kept stays in its order: idx lists exactly the places with fewer than n later
  // entries of the same row.
  lemma {:induction false} KeptMeaning(es: seq<Version>, n: nat) returns (idx: seq<nat>)
    ensures |idx| == |Kept(es, n)|
    ensures forall j :: 0 <= j < |idx| ==> idx[j] < |es| && Kept(es, n)[j] == es[idx[j]]
    ensures forall j, k :: 0 <= j < k < |idx| ==> idx[j] < idx[k]
    ensures forall k: nat :: k in idx <==> k < |es| && |set j | k < j < |es| && es[j].sid == es[k].sid| < n
  {
    idx := KeptPlaces(es, n, 0);
    assert es[0..] == es;
    forall k: nat | k < |es| ensures Later(es, k) == |set j | k < j < |es| && es[j].sid == es[k].sid| {
      LaterMeaning(es, k);
    }
  }

  lemma LaterMeaning(es: seq<Version>, i: nat)
    requires i < |es|
    ensures Later(es, i) == |set j | i < j < |es| && es[j].sid == es[i].sid|
  {
    TimesMeaning(es, i + 1, es[i].sid);
    assert Places(es, i + 1, es[i].sid) == set j | i < j < |es| && es[j].sid == es[i].sid;
  }

  lemma {:induction false} KeptPlaces(es: seq<Version>, n: nat, i: nat) returns (idx: seq<nat>)
    requires i <= |es|
    ensures |idx| == |Kept(es[i..], n)|
    ensures forall j :: 0 <= j < |idx| ==> i <= idx[j] < |es| && Kept(es[i..], n)[j] == es[idx[j]]
    ensures forall j, k :: 0 <= j < k < |idx| ==> idx[j] < idx[k]
    ensures forall k: nat :: k in idx <==> i <= k < |es| && Later(es, k) < n
    decreases |es| - i
  {
    if i == |es| { return []; }
    var rest := KeptPlaces(es, n, i + 1);
    assert es[i..][1..] == es[i + 1..] && es[i..][0] == es[i];
    idx := (if Later(es, i) < n then [i] else []) + rest;
  }

  // The versions of one row, oldest first.
  function Of(es: seq<Version>, sid: int): (r: seq<Version>)
    ensures |r| == Times(es, sid)
  {
    if |es| == 0 then [] else (if es[0].sid == sid then [es[0]] else []) + Of(es[1..], sid)
  }

  function Newest(q: seq<Version>, n: nat): seq<Version> {
    if |q| <= n then q else q[|q| - n..]
  }

  lemma OfFront(e: Version, es: seq<Version>, sid: int)
    ensures Of([e] + es, sid) == if e.sid == sid then [e] + Of(es, sid) else Of(es, sid)
  {
    assert ([e] + es)[1..] == es;
    assert [] + Of(es, sid) == Of(es, sid);
  }

  lemma KeptFront(e: Version, es: seq<Version>, n: nat)
    ensures Kept([e] + es, n) == if Times(es, e.sid) < n then [e] + Kept(es, n) else Kept(es, n)
  {
    assert ([e] + es)[1..] == es;
    assert [] + Kept(es, n) == Kept(es, n);
  }

  lemma NewestFront(e: Version, q: seq<Version>, n: nat)
    ensures Newest([e] + q, n) == if |q| < n then [e] + Newest(q, n) else Newest(q, n)
  {
  }

  // Every row keeps exactly its newest versions, at most n of them.
  lemma {:induction false} KeepsNewest(es: seq<Version>, n: nat, sid: int)
    ensures Of(Kept(es, n), sid) == Newest(Of(es, sid), n)
  {
    if |es| > 0 {
      hide Of, Newest, Kept, Times;
      var e, rest := es[0], es[1..];
      assert [e] + rest == es;
      KeepsNewest(rest, n, sid);
      KeptFront(e, rest, n);
      OfFront(e, rest, sid);
      OfFront(e, Kept(rest, n), sid);
      NewestFront(e, Of(rest, sid), n);
    }
  }

  // So compacting again changes nothing.
  lemma {:induction false} CompactedTwice(es: seq<Version>, n: nat)
    ensures Kept(Kept(es, n), n) == Kept(es, n)
  {
    if |es| > 0 {
      CompactedTwice(es[1..], n);
      var rest := Kept(es[1..], n);
      if Times(es[1..], es[0].sid) < n {
        KeepsNewest(es[1..], n, es[0].sid);
        assert Times(rest, es[0].sid) == |Of(rest, es[0].sid)| < n;
        KeptFront(es[0], rest, n);
      }
      KeptFront(es[0], es[1..], n);
      assert [es[0]] + es[1..] == es;
    }
  }

  // The number of kept entries of a row from i on.
  function KeptTimes(es: seq<Version>, keep: seq<bool>, i: nat, sid: int): nat
    requires |keep| == |es| && i <= |es|
    decreases |es| - i
  {
    if i == |es| then 0
    else KeptTimes(es, keep, i + 1, sid) + if keep[i] && es[i].sid == sid then 1 else 0
  }

  // Keeping an entry while fewer than n later ones are kept is keeping it while fewer than n
  // later ones exist.
  lemma {:induction false} KeptIsCapped(es: seq<Version>, keep: seq<bool>, n: nat, i: nat, sid: int)
    requires |keep| == |es| && i <= |es|
    requires forall k :: i <= k < |es| ==> (keep[k] <==> Later(es, k) < n)
    ensures KeptTimes(es, keep, i, sid) == if Times(es[i..], sid) < n then Times(es[i..], sid) else n
    decreases |es| - i
  {
    if i < |es| {
      KeptIsCapped(es, keep, n, i + 1, sid);
      assert es[i..][1..] == es[i + 1..];
    }
  }

  // The marking loops of jinn_ver_compact, newest entry first.
  method Mark(es: seq<Version>, n: nat) returns (keep: array<bool>)
    ensures fresh(keep) && keep.Length == |es|
    ensures forall i :: 0 <= i < |es| ==> (keep[i] <==> Later(es, i) < n)
  {
    keep := new bool[|es|](_ => false);
    var i := |es|;
    while i > 0
      invariant 0 <= i <= |es| == keep.Length
      invariant forall k :: 0 <= k < i ==> !keep[k]
      invariant forall k :: i <= k < |es| ==> (keep[k] <==> Later(es, k) < n)
    {
      i := i - 1;
      var kept := CountKept(es, keep, i);
      KeptIsCapped(es, keep[..], n, i + 1, es[i].sid);
      if kept < n { keep[i] := true; }
    }
  }

  // The inner loop: kept entries of entry i's row, from the end down to i itself.
  method CountKept(es: seq<Version>, keep: array<bool>, i: nat) returns (kept: nat)
    requires keep.Length == |es| && i < |es| && !keep[i]
    ensures kept == KeptTimes(es, keep[..], i + 1, es[i].sid)
  {
    kept := 0;
    var j := |es|;
    while j > i
      invariant i <= j <= |es|
      invariant kept == KeptTimes(es, keep[..], j, es[i].sid)
    {
      j := j - 1;
      if es[j].sid == es[i].sid && keep[j] { kept := kept + 1; }
    }
  }

  // jinn_ver_compact with ver_fill: what the rewritten file holds.
  method Compact(es: seq<Version>, keepN: int) returns (out: seq<Version>)
    ensures keepN <= 0 ==> out == es
    ensures keepN > 0 ==> out == Kept(es, keepN)
  {
    if keepN <= 0 || |es| == 0 { return es; }
    var keep := Mark(es, keepN);
    out := [];
    var i := 0;
    assert es[0..] == es;
    while i < |es|
      invariant i <= |es| && out + Kept(es[i..], keepN) == Kept(es, keepN)
      invariant forall k :: 0 <= k < |es| ==> (keep[k] <==> Later(es, k) < keepN)
    {
      assert es[i..][1..] == es[i + 1..];
      if keep[i] { out := out + [es[i]]; }
      i := i + 1;
    }
  }
}
