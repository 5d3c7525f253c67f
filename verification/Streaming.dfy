/** Bounded drill-down: re-stream the frozen scope, re-derive, keep what matches. */
module Streaming {
  import opened Sequences
  import opened Rows

  /** The job is asked to stop at some checkpoint of a pass: one follows every 4096 rows. */
  ghost predicate Asked(cancelAt: nat -> bool, first: nat, last: nat) {
    exists n: nat :: first <= n <= last && n % 4096 == 0 && cancelAt(n)
  }

  lemma AskedLater(cancelAt: nat -> bool, first: nat, n: nat)
    requires first <= n + 1
    ensures Asked(cancelAt, first, n + 1) <==> Asked(cancelAt, first, n) || ((n + 1) % 4096 == 0 && cancelAt(n + 1))
  {
    if n': nat :| first <= n' <= n + 1 && n' % 4096 == 0 && cancelAt(n') { assert n' <= n || n' == n + 1; }
    if n': nat :| first <= n' <= n && n' % 4096 == 0 && cancelAt(n') { assert n' <= n + 1; }
  }

  lemma AskedMore(cancelAt: nat -> bool, first: nat, n: nat, last: nat)
    requires n <= last && Asked(cancelAt, first, n)
    ensures Asked(cancelAt, first, last)
  {
    var m: nat :| first <= m <= n && m % 4096 == 0 && cancelAt(m);
    assert m <= last;
  }

  /** `limit.clamp(1, 10_000)`. */
  function Clamped(limit: nat): (n: nat)
    ensures 1 <= n <= 10_000 && (1 <= limit <= 10_000 ==> n == limit)
    ensures (limit < 1 ==> n == 1) && (limit > 10_000 ==> n == 10_000)
  {
    if limit < 1 then 1 else if limit > 10_000 then 10_000 else limit
  }

  /** Once a prefix holds `n` matches, the rest of the stream cannot change the first `n`. */
  lemma StopsInTime(want: LogRow -> bool, s: seq<LogRow>, i: nat)
    requires i <= |s|
    ensures Upto(|Filter(want, s[..i])|, Filter(want, s)) == Filter(want, s[..i])
  {
    hide Filter;
    FilterConcat(want, s[..i], s[i..]);
    assert s == s[..i] + s[i..];
  }

  lemma NothingMatches(want: LogRow -> bool)
    ensures Filter(want, []) == []
  {
  }

  method Matching(stream: seq<LogRow>, want: LogRow -> bool, limit: nat) returns (hits: seq<LogRow>)
    ensures hits == Upto(Clamped(limit), Filter(want, stream))
  {
    NothingMatches(want);
    hide Filter;
    hits := [];
    var i := 0;
    assert stream[..0] == [];
    while i < |stream|
      invariant i <= |stream|
      invariant hits == Filter(want, stream[..i])
      invariant |hits| < Clamped(limit)
    {
      FilterSnoc(want, stream[..i], stream[i]);
      assert stream[..i + 1] == stream[..i] + [stream[i]];
      if want(stream[i]) {
        hits := hits + [stream[i]];
        if |hits| >= Clamped(limit) {
          StopsInTime(want, stream, i + 1);
          return;
        }
      }
      i := i + 1;
    }
    assert stream[..i] == stream;
  }
}
