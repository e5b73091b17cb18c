/** The byte layout produced by the writers of ezh.h: each argument contributes the
    `sizeof(arg)` bytes of its native representation, back to back, in argument order,
    with no padding and no framing. */
module Layout {

  type byte = bv8

  /** One argument of a fundamental, non-pointer type, seen as its native
      representation. Every such type has `sizeof >= 1`, so the bytes are never empty. */
  type Value = s: seq<byte> | |s| > 0 witness [0]

  /** The unary right fold `(sizeof(args) + ...)`: the number of bytes the pack
      occupies. */
  function TotalSize(args: seq<Value>): (n: nat)
    ensures n >= |args|
  {
    if args == [] then 0 else |args[0]| + TotalSize(args[1..])
  }

  /** The bytes the pack produces: each argument's bytes, in argument order. */
  function Flatten(args: seq<Value>): (bytes: seq<byte>)
    ensures |bytes| == TotalSize(args)
  {
    if args == [] then [] else args[0] + Flatten(args[1..])
  }

  /** The width of two packs together is the sum of their widths. */
  lemma {:induction false} TotalSizeAppend(a: seq<Value>, b: seq<Value>)
    ensures TotalSize(a + b) == TotalSize(a) + TotalSize(b)
  {
    if a == [] {
      assert a + b == b;
    } else {
      assert (a + b)[1..] == a[1..] + b;
      TotalSizeAppend(a[1..], b);
    }
  }

  /** Writing two packs one after the other lays out the same bytes as writing
      their concatenation at once. */
  lemma {:induction false} FlattenAppend(a: seq<Value>, b: seq<Value>)
    ensures Flatten(a + b) == Flatten(a) + Flatten(b)
  {
    if a == [] {
      assert a + b == b;
    } else {
      assert (a + b)[1..] == a[1..] + b;
      FlattenAppend(a[1..], b);
    }
  }

  /** A prefix of the pack is never wider than the whole pack. */
  lemma TotalSizePrefix(args: seq<Value>, j: nat)
    requires j <= |args|
    ensures TotalSize(args[..j]) <= TotalSize(args)
  {
    assert args[..j] + args[j..] == args;
    TotalSizeAppend(args[..j], args[j..]);
  }

  /** Extending a prefix of the pack by one argument appends that argument's bytes
      and advances the width by that argument's width. */
  lemma FlattenPrefixStep(args: seq<Value>, k: nat)
    requires k < |args|
    ensures Flatten(args[..k + 1]) == Flatten(args[..k]) + args[k]
    ensures TotalSize(args[..k]) + |args[k]| == TotalSize(args[..k + 1]) <= TotalSize(args)
  {
    var pre, one := args[..k], [args[k]];
    assert pre + one == args[..k + 1];
    FlattenAppend(pre, one);
    assert one[1..] == [];
    assert Flatten(one) == args[k];
    TotalSizePrefix(args, k + 1);
  }

  /** Argument k starts at the total width of the arguments before it and can be
      read back from there with its own width: the layout loses nothing. */
  lemma FlattenAt(args: seq<Value>, k: nat)
    requires k < |args|
    ensures TotalSize(args[..k]) + |args[k]| <= TotalSize(args)
    ensures Flatten(args)[TotalSize(args[..k])..TotalSize(args[..k]) + |args[k]|] == args[k]
  {
    var head, rest := args[..k + 1], args[k + 1..];
    FlattenPrefixStep(args, k);
    assert head + rest == args;
    FlattenAppend(head, rest);
    assert Flatten(args) == Flatten(args[..k]) + args[k] + Flatten(rest);
  }

  /** The memory `s` after `bytes` have been copied into it starting at index `at`. */
  function Splice(s: seq<byte>, at: nat, bytes: seq<byte>): (r: seq<byte>)
    requires at + |bytes| <= |s|
    ensures |r| == |s|
    ensures r[at..at + |bytes|] == bytes
    ensures forall i :: 0 <= i < |s| && !(at <= i < at + |bytes|) ==> r[i] == s[i]
  {
    s[..at] + bytes + s[at + |bytes|..]
  }

  /** Copying `a` and then `b` right after it is the same as copying `a + b` at once. */
  lemma SpliceChain(s: seq<byte>, at: nat, a: seq<byte>, b: seq<byte>)
    requires at + |a| + |b| <= |s|
    ensures Splice(Splice(s, at, a), at + |a|, b) == Splice(s, at, a + b)
  {
  }

  /** One step of the writer's loop: if `done` is `s` with the first k arguments
      copied at `at`, and `after` is `done` with argument k copied at the advanced
      cursor, then `after` is `s` with the first k + 1 arguments copied. */
  lemma SplicePrefixStep(s: seq<byte>, at: nat, args: seq<Value>, k: nat, done: seq<byte>, after: seq<byte>)
    requires k < |args|
    requires at + TotalSize(args) <= |s|
    requires at + TotalSize(args[..k]) <= |s| && done == Splice(s, at, Flatten(args[..k]))
    requires at + TotalSize(args[..k]) + |args[k]| <= |done|
    requires after == Splice(done, at + TotalSize(args[..k]), args[k])
    ensures TotalSize(args[..k + 1]) <= TotalSize(args)
    ensures after == Splice(s, at, Flatten(args[..k + 1]))
  {
    FlattenPrefixStep(args, k);
    var prefix := Flatten(args[..k]);
    calc {
      after;
      Splice(Splice(s, at, prefix), at + |prefix|, args[k]);
      { SpliceChain(s, at, prefix, args[k]); }
      Splice(s, at, prefix + args[k]);
      Splice(s, at, Flatten(args[..k + 1]));
    }
  }

  /** Writing pack `a` at `offset` and then pack `b` at the offset the first write
      returns leaves the same bytes, and ends at the same offset, as writing `a + b`
      at `offset` in one call: if `middle` is `s` after the first write and `final`
      is `middle` after the second, `final` is `s` after the single write. */
  lemma PackChain(s: seq<byte>, offset: nat, a: seq<Value>, b: seq<Value>, middle: seq<byte>, final: seq<byte>)
    requires offset + TotalSize(a) + TotalSize(b) <= |s|
    requires middle == Splice(s, offset, Flatten(a))
    requires final == Splice(middle, offset + TotalSize(a), Flatten(b))
    ensures TotalSize(a + b) == TotalSize(a) + TotalSize(b)
    ensures final == Splice(s, offset, Flatten(a + b))
  {
    TotalSizeAppend(a, b);
    assert final == Splice(s, offset, Flatten(a + b)) by {
      var fa, fb := Flatten(a), Flatten(b);
      calc {
        final;
        Splice(Splice(s, offset, fa), offset + |fa|, fb);
        { SpliceChain(s, offset, fa, fb); }
        Splice(s, offset, fa + fb);
        { FlattenAppend(a, b); }
        Splice(s, offset, Flatten(a + b));
      }
    }
  }

  /** A slice of a slice is a slice of the whole. */
  lemma SliceOfSlice(r: seq<byte>, lo: nat, hi: nat, i: nat, j: nat)
    requires lo <= hi <= |r| && i <= j <= hi - lo
    ensures r[lo..hi][i..j] == r[lo + i..lo + j]
  {
    var x, y := r[lo..hi][i..j], r[lo + i..lo + j];
    forall t | 0 <= t < |x|
      ensures x[t] == y[t]
    {
    }
  }

  /** After the pack is written at `offset`, every argument can be read back from
      the memory at its own offset and width. */
  lemma SplicedReadBack(s: seq<byte>, offset: nat, args: seq<Value>, k: nat)
    requires offset + TotalSize(args) <= |s|
    requires k < |args|
    ensures offset + TotalSize(args[..k]) + |args[k]| <= |s|
    ensures Splice(s, offset, Flatten(args))[offset + TotalSize(args[..k])..offset + TotalSize(args[..k]) + |args[k]|]
         == args[k]
  {
    var r, bytes := Splice(s, offset, Flatten(args)), Flatten(args);
    var start, width := TotalSize(args[..k]), |args[k]|;
    FlattenAt(args, k);
    assert r[offset..offset + |bytes|] == bytes;
    SliceOfSlice(r, offset, offset + |bytes|, start, start + width);
  }
}
