/**
 Building the handler chain: statistics, exclusion of unmatched reads, tagging,
 applying the transformation, writing; the exclusion stage is dropped from the
 list when unmatched reads are to be kept.
 */
module Handlers {
  import opened Types

  /** The index of the first occurrence of `x` in `s`. */
  function IndexOf<T(==)>(s: seq<T>, x: T): (i: nat)
    requires x in s
    ensures i < |s| && s[i] == x && x !in s[..i]
  {
    if s[0] == x then 0
    else
      var i := 1 + IndexOf(s[1..], x);
      assert s[..i] == [s[0]] + s[1..][..i - 1];
      i
  }

  /** `s` with its first occurrence of `x` removed, as a list's `remove`
      does; `x` must occur in `s`. */
  function RemoveFirst<T(==)>(s: seq<T>, x: T): (r: seq<T>)
    requires x in s
    ensures r == s[..IndexOf(s, x)] + s[IndexOf(s, x) + 1..]
    ensures |r| == |s| - 1
  {
    assert s == [s[0]] + s[1..];
    if s[0] == x then s[1..]
    else
      var rest := RemoveFirst(s[1..], x);
      assert s[..IndexOf(s, x)] == [s[0]] + s[1..][..IndexOf(s[1..], x)];
      [s[0]] + rest
  }

  /** Removing takes away one occurrence of `x` and nothing else. */
  lemma RemoveFirstMultiset<T>(s: seq<T>, x: T)
    requires x in s
    ensures multiset(RemoveFirst(s, x)) == multiset(s) - multiset{x}
  {
    var i := IndexOf(s, x);
    assert s == s[..i] + [x] + s[i + 1..];
  }

  /** The full chain, in the order the stages run. */
  const AllHandlers: seq<Handler> :=
    [StatsHandler, ExcludeNonMatchedReadHandler, AddTagsReadHandler, TransformReadHandler, WriteReadHandler]

  /** The chain with the exclusion stage present exactly when unmatched reads
      are to be excluded; the other four stages keep their order. */
  method BuildHandlers(excludeUnmatchedReads: bool) returns (handlers: seq<Handler>)
    ensures excludeUnmatchedReads ==> handlers == AllHandlers
    ensures !excludeUnmatchedReads ==>
              handlers == [StatsHandler, AddTagsReadHandler, TransformReadHandler, WriteReadHandler]
    ensures ExcludeNonMatchedReadHandler in handlers <==> excludeUnmatchedReads
  {
    handlers := AllHandlers;
    if !excludeUnmatchedReads {
      var i := IndexOf(handlers, ExcludeNonMatchedReadHandler);
      assert i == 1;
      handlers := RemoveFirst(handlers, ExcludeNonMatchedReadHandler);
      assert handlers == [AllHandlers[0]] + AllHandlers[2..];
    }
  }
}
