/** The physical frame allocator: a bitmap with a search cursor. A 32-bit word is the set
    of the positions of its set bits. */
module FrameAllocator {

  type Word = set<nat>

  /** The mask of `n` ones from bit `j` on. */
  function Bits(j: nat, n: nat): Word {
    set k: nat | k < j + n && InRun(j, n, k)
  }

  predicate InRun(j: nat, n: nat, k: nat) {
    j <= k < j + n
  }

  /** The mask as a word. */
  function Mask(n: bv32, j: bv32): bv32
    requires 1 <= n <= 32 && j <= 32
  {
    ((0xFFFFFFFF as bv32) >> (32 - n)) << j
  }

  /** It has exactly the bits from `j` on, `n` of them. */
  lemma MaskBits(n: bv32, j: bv32, k: bv32)
    requires 1 <= n <= 32 && j <= 32 - n && k < 32
    ensures Mask(n, j) & ((1 as bv32) << k) != 0 <==> j <= k && k - j < n
  {
  }

  const FULL: Word := Bits(0, 32)

  // ----- the bitmap -----

  /** The words for so many frames: the bytes of whole groups of 8, rounded up to words. */
  function WordCount(frames: nat): (n: nat)
    ensures frames / 32 <= n
  {
    (frames / 8 + 3) / 4
  }

  ghost predicate WordsOk(ws: seq<Word>) {
    forall i :: 0 <= i < |ws| ==> ws[i] <= FULL
  }

  predicate Used(ws: seq<Word>, f: nat) {
    f / 32 < |ws| && f % 32 in ws[f / 32]
  }

  /** `n` free frames from `f` on, all in one word. */
  ghost predicate FreeRun(ws: seq<Word>, f: nat, n: nat) {
    f / 32 < |ws| && f % 32 + n <= 32 && ws[f / 32] !! Bits(f % 32, n)
  }

  /** The number of bits set. */
  function Total(ws: seq<Word>): nat {
    if ws == [] then 0 else Total(ws[..|ws| - 1]) + |ws[|ws| - 1]|
  }

  lemma {:induction false} TotalUpdate(ws: seq<Word>, i: nat, w: Word)
    requires i < |ws|
    ensures Total(ws[i := w]) == Total(ws) - |ws[i]| + |w|
  {
    var vs, n := ws[i := w], |ws| - 1;
    if i < n {
      TotalUpdate(ws[..n], i, w);
      assert vs[..n] == ws[..n][i := w];
    } else {
      assert vs[..n] == ws[..n];
    }
  }

  lemma {:induction false} TotalZero(ws: seq<Word>)
    requires forall i :: 0 <= i < |ws| ==> ws[i] == {}
    ensures Total(ws) == 0
  {
    if ws != [] { TotalZero(ws[..|ws| - 1]); }
  }

  /** The bitmap with `n` frames from `f` on taken, in one word. */
  function SetRun(ws: seq<Word>, f: nat, n: nat): seq<Word>
    requires f / 32 < |ws|
  {
    ws[f / 32 := ws[f / 32] + Bits(f % 32, n)]
  }

  /** The bitmap with `n` frames from `f` on free, in any number of words. */
  function ClearRun(ws: seq<Word>, f: nat, n: nat): seq<Word>
    requires f + n <= 32 * |ws|
    ensures |ClearRun(ws, f, n)| == |ws|
  {
    if n == 0 then ws
    else
      var vs, g := ClearRun(ws, f, n - 1), f + n - 1;
      vs[g / 32 := vs[g / 32] - {g % 32}]
  }

  /** What the two do to every frame. */
  lemma SetRunUses(ws: seq<Word>, f: nat, n: nat, g: nat)
    requires FreeRun(ws, f, n)
    ensures Used(SetRun(ws, f, n), g) <==> Used(ws, g) || f <= g < f + n
  {
  }

  /** A run of free frames: none of them is in use, and they lie in one word. */
  lemma FreeRunUses(ws: seq<Word>, f: nat, n: nat)
    ensures FreeRun(ws, f, n) <==> f / 32 < |ws| && f % 32 + n <= 32 && forall g: nat :: f <= g < f + n ==> !Used(ws, g)
  {
    if f / 32 < |ws| && f % 32 + n <= 32 {
      forall g: nat | f <= g < f + n ensures g / 32 == f / 32 && g % 32 == f % 32 + (g - f) && g % 32 in Bits(f % 32, n) {}
      if forall g: nat :: f <= g < f + n ==> !Used(ws, g) {
        forall b | b in ws[f / 32] ensures b !in Bits(f % 32, n) {
          if b in Bits(f % 32, n) { assert Used(ws, f - f % 32 + b); }
        }
      }
    }
  }

  lemma {:induction false} ClearRunUses(ws: seq<Word>, f: nat, n: nat, g: nat)
    requires f + n <= 32 * |ws|
    ensures Used(ClearRun(ws, f, n), g) <==> Used(ws, g) && !(f <= g < f + n)
  {
    if n > 0 { ClearRunUses(ws, f, n - 1, g); }
  }

  lemma {:induction false} ClearRunOk(ws: seq<Word>, f: nat, n: nat)
    requires f + n <= 32 * |ws| && WordsOk(ws)
    ensures WordsOk(ClearRun(ws, f, n))
    ensures forall i :: 0 <= i < |ws| && i < f / 32 ==> ClearRun(ws, f, n)[i] == ws[i]
  {
    if n > 0 { ClearRunOk(ws, f, n - 1); }
  }

  /** Two bitmaps with the same frames in use are the same. */
  lemma SameWords(ws: seq<Word>, vs: seq<Word>)
    requires WordsOk(ws) && WordsOk(vs) && |ws| == |vs| && forall g: nat :: Used(ws, g) <==> Used(vs, g)
    ensures ws == vs
  {
    forall i: nat | i < |ws| ensures ws[i] == vs[i] {
      forall b: nat ensures b in ws[i] <==> b in vs[i] {
        assert b in FULL ==> (Used(ws, 32 * i + b) <==> b in ws[i]) && (Used(vs, 32 * i + b) <==> b in vs[i]);
      }
    }
  }

  /** Freeing an allocation restores the bitmap. */
  lemma RoundTrip(ws: seq<Word>, f: nat, n: nat)
    requires WordsOk(ws) && FreeRun(ws, f, n)
    ensures f + n <= 32 * |ws| && ClearRun(SetRun(ws, f, n), f, n) == ws
  {
    var vs := SetRun(ws, f, n);
    ClearRunOk(vs, f, n);
    forall g: nat ensures Used(ClearRun(vs, f, n), g) <==> Used(ws, g) {
      SetRunUses(ws, f, n, g);
      ClearRunUses(vs, f, n, g);
      if f <= g < f + n { assert g / 32 == f / 32 && g % 32 in Bits(f % 32, n); }
    }
    SameWords(ClearRun(vs, f, n), ws);
  }

  lemma {:induction false} BitsCount(j: nat, n: nat)
    ensures |Bits(j, n)| == n
  {
    if n == 0 {
      assert Bits(j, 0) == {};
    } else {
      BitsCount(j, n - 1);
      assert Bits(j, n) == Bits(j, n - 1) + {j + n - 1};
    }
  }

  lemma RunCount(ws: seq<Word>, f: nat, n: nat)
    requires FreeRun(ws, f, n)
    ensures Total(SetRun(ws, f, n)) == Total(ws) + n
  {
    BitsCount(f % 32, n);
    TotalUpdate(ws, f / 32, ws[f / 32] + Bits(f % 32, n));
  }

  /** Every word below the cursor is full; the counter counts the bits set. */
  ghost predicate Sound(ws: seq<Word>, limit: nat, cursor: nat, nused: int) {
    && WordsOk(ws) && limit <= |ws| && cursor <= |ws|
    && (forall i :: 0 <= i < cursor ==> ws[i] == FULL)
    && nused == Total(ws)
  }

  lemma SoundNext(ws: seq<Word>, limit: nat, cursor: nat, nused: int)
    requires Sound(ws, limit, cursor, nused) && cursor < |ws| && ws[cursor] == FULL
    ensures Sound(ws, limit, cursor + 1, nused)
  {
  }

  lemma SoundAlloc(ws: seq<Word>, limit: nat, cursor: nat, nused: int, f: nat, n: nat)
    requires Sound(ws, limit, cursor, nused) && FreeRun(ws, f, n) && n >= 1
    ensures Sound(SetRun(ws, f, n), limit, cursor, nused + n) && SetRun(ws, f, n) != ws
  {
    RunCount(ws, f, n);
    assert f % 32 in Bits(f % 32, n) && f % 32 in FULL;
  }

  lemma SoundFree(ws: seq<Word>, limit: nat, cursor: nat, nused: int, base: nat, n: nat)
    requires Sound(ws, limit, cursor, nused) && base + n <= 32 * |ws|
    ensures Sound(ClearRun(ws, base, n), limit, if base / 32 < cursor then base / 32 else cursor, Total(ClearRun(ws, base, n)))
  {
    ClearRunOk(ws, base, n);
  }

  lemma ClearStep(ws: seq<Word>, base: nat, i: nat)
    requires base + i < 32 * |ws|
    ensures var vs, g := ClearRun(ws, base, i), base + i;
            && ClearRun(ws, base, i + 1) == vs[g / 32 := vs[g / 32] - {g % 32}]
            && (g % 32 !in vs[g / 32] ==> ClearRun(ws, base, i + 1) == vs)
            && Total(ClearRun(ws, base, i + 1)) == Total(vs) - (if g % 32 in vs[g / 32] then 1 else 0)
  {
    var vs, g := ClearRun(ws, base, i), base + i;
    TotalUpdate(vs, g / 32, vs[g / 32] - {g % 32});
    if g % 32 !in vs[g / 32] { assert vs[g / 32] - {g % 32} == vs[g / 32]; }
  }

  class Frames {
    const words: array<Word>
    const nframes: nat
    var nused: int
    var cursor: nat            // begin_search_at

    ghost predicate Valid()
      reads this, words
    {
      Sound(words[..], nframes / 32, cursor, nused)
    }

    /** frame_init_allocator: the frames of the kernel, and no others, are in use. */
    constructor (total: nat, kernelPages: nat)
      requires kernelPages <= 32 * WordCount(total)
      ensures Valid() && nframes == total && fresh(words) && words.Length == (total / 8 + 3) / 4
      ensures forall g: nat :: Used(words[..], g) <==> g < kernelPages
    {
      nframes := total;
      words := new Word[WordCount(total)](i => {});
      nused, cursor := 0, 0;
      new;
      Init(kernelPages);
    }

    method Init(kernelPages: nat)
      requires kernelPages <= 32 * words.Length && words.Length == WordCount(nframes) && nused == 0
      requires forall i :: 0 <= i < words.Length ==> words[i] == {}
      modifies this, words
      ensures Valid() && forall g: nat :: Used(words[..], g) <==> g < kernelPages
    {
      hide Used, WordsOk, Total;
      StartsEmpty(words[..]);
      var i := 0;
      while i < kernelPages
        invariant i <= kernelPages && WordsOk(words[..]) && nused == i == Total(words[..])
        invariant forall g: nat :: Used(words[..], g) <==> g < i
      {
        ghost var ws := words[..];
        AddFrame(ws, i);
        words[i / 32] := words[i / 32] + {i % 32};
        nused := nused + 1;
        assert words[..] == ws[i / 32 := ws[i / 32] + {i % 32}];
        i := i + 1;
      }
      cursor := kernelPages / 32;
      StartsSound(words[..], nframes / 32, kernelPages);
    }

    /** The inner loop of frame_alloc: the first place in a word with `n` free bits. */
    method FindIn(w: Word, n: nat) returns (j: nat)
      requires 1 <= n <= 32
      ensures j + n <= 32 ==> w !! Bits(j, n)
      ensures forall k: nat :: k < j && k + n <= 32 ==> !(w !! Bits(k, n))
      ensures j <= 33 - n
    {
      j := 0;
      while j < 32 - n + 1
        invariant j <= 33 - n && forall k: nat :: k < j ==> !(w !! Bits(k, n))
      {
        NoneShared(w, Bits(j, n));
        if w * Bits(j, n) == {} { return; }
        j := j + 1;
      }
    }

    /** No `n` free frames inside one word, among the words that are searched. */
    ghost predicate NoneFree(ws: seq<Word>, n: nat) {
      forall g: nat :: g < 32 * (nframes / 32) ==> !FreeRun(ws, g, n)
    }

    /** frame_alloc: the first `n` free frames inside one word, found as a scan from word 0
        would find them, or 0 and no change when there are none. A result of 0 means that
        there are none exactly if frame 0 does not start such a run: that is so while
        frame 0, which the kernel takes at the start, has not been freed. */
    method Alloc(n: nat) returns (f: nat)
      requires Valid() && n >= 1
      modifies this`nused, this`cursor, words
      ensures Valid()
      ensures NoneFree(old(words[..]), n) ==> f == 0 && words[..] == old(words[..]) && nused == old(nused)
      ensures !NoneFree(old(words[..]), n) ==>
        && FreeRun(old(words[..]), f, n) && words[..] == SetRun(old(words[..]), f, n) && nused == old(nused) + n
        && f < 32 * (nframes / 32) && forall g: nat :: g < f ==> !FreeRun(old(words[..]), g, n)
      ensures f == 0 <==> NoneFree(old(words[..]), n) || FreeRun(old(words[..]), 0, n)
      ensures old(Used(words[..], 0)) ==> (f == 0 <==> NoneFree(old(words[..]), n))
    {
      hide Sound, FreeRun, Bits, Used, WordsOk;
      ghost var ws := words[..];
      ZeroUsed(ws, n);
      if n > 32 {
        NoneWide(ws, n);
        return 0;
      }
      var i := cursor;
      BelowFull(ws, nframes / 32, cursor, nused, n);
      while i < nframes / 32
        invariant cursor <= i && words[..] == ws && Valid() && nused == old(nused)
        invariant forall g: nat :: g < 32 * i ==> !FreeRun(ws, g, n)
      {
        NextWord(ws, nframes / 32, cursor, nused, i, n);
        assert words[i] == ws[i];
        if words[i] == FULL {
          if i == cursor {
            SoundNext(ws, nframes / 32, cursor, nused);
            cursor := cursor + 1;
          }
          i := i + 1;
          continue;
        }
        var j := FindIn(words[i], n);
        if j + n <= 32 {
          f := i * 32 + j;
          FirstRun(ws, i, j, n);
          assert !NoneFree(ws, n);
          SoundAlloc(ws, nframes / 32, cursor, nused, f, n);
          words[i] := words[i] + Bits(j, n);
          nused := nused + n;
          assert words[..] == SetRun(ws, f, n);
          return;
        }
        i := i + 1;
      }
      f := 0;
    }

    /** frame_free: exactly these frames are free now, and the counter follows. */
    method Free(base: nat, n: nat)
      requires Valid() && base + n <= 32 * words.Length
      modifies this`nused, this`cursor, words
      ensures Valid() && words[..] == ClearRun(old(words[..]), base, n)
    {
      hide Used, WordsOk, ClearRun, Total;
      ghost var ws := words[..];
      ClearNone(ws, base);
      SoundFree(ws, nframes / 32, cursor, nused, base, n);
      var i := 0;
      while i < n
        invariant i <= n && words[..] == ClearRun(ws, base, i) && nused == Total(words[..]) && cursor == old(cursor)
      {
        var g := base + i;
        ghost var vs := words[..];
        ClearStep(ws, base, i);
        if g % 32 in words[g / 32] {
          words[g / 32] := words[g / 32] - {g % 32};
          nused := nused - 1;
          assert words[..] == vs[g / 32 := vs[g / 32] - {g % 32}];
        }
        i := i + 1;
      }
      if base / 32 < cursor { cursor := base / 32; }
    }
  }

  lemma NoneShared(w: Word, b: Word)
    ensures w * b == {} <==> w !! b
  {
    forall x | x in w && x in b ensures w * b != {} { assert x in w * b; }
  }

  lemma ClearNone(ws: seq<Word>, base: nat)
    requires base <= 32 * |ws|
    ensures ClearRun(ws, base, 0) == ws
  {
  }

  lemma StartsEmpty(ws: seq<Word>)
    requires forall i :: 0 <= i < |ws| ==> ws[i] == {}
    ensures WordsOk(ws) && Total(ws) == 0 && forall g: nat :: !Used(ws, g)
  {
    TotalZero(ws);
  }

  lemma AddFrame(ws: seq<Word>, i: nat)
    requires WordsOk(ws) && i / 32 < |ws| && !Used(ws, i)
    ensures var vs := ws[i / 32 := ws[i / 32] + {i % 32}];
            WordsOk(vs) && Total(vs) == Total(ws) + 1 && forall g: nat :: Used(vs, g) <==> Used(ws, g) || g == i
  {
    TotalUpdate(ws, i / 32, ws[i / 32] + {i % 32});
    forall g: nat ensures g / 32 == i / 32 && g % 32 == i % 32 <==> g == i {}
  }

  /** With the first `k` frames in use, the words below the cursor are full. */
  lemma StartsSound(ws: seq<Word>, limit: nat, k: nat)
    requires WordsOk(ws) && Total(ws) == k && k <= 32 * |ws| && limit <= |ws|
    requires forall g: nat :: Used(ws, g) <==> g < k
    ensures Sound(ws, limit, k / 32, k)
  {
    forall i: nat | i < k / 32 ensures ws[i] == FULL {
      forall b: nat | b in FULL ensures b in ws[i] { assert Used(ws, 32 * i + b); }
    }
  }

  /** No run starts at a frame in use. */
  lemma ZeroUsed(ws: seq<Word>, n: nat)
    requires n >= 1
    ensures Used(ws, 0) ==> !FreeRun(ws, 0, n)
  {
    assert 0 in Bits(0, n);
  }

  lemma NoneWide(ws: seq<Word>, n: nat)
    requires n > 32
    ensures forall g: nat :: !FreeRun(ws, g, n)
  {
  }

  /** The first place in the first word that has one is the first run of all. */
  lemma FirstRun(ws: seq<Word>, i: nat, j: nat, n: nat)
    requires i < |ws| && 1 <= n && j + n <= 32 && ws[i] !! Bits(j, n)
    requires forall k: nat :: k < j && k + n <= 32 ==> !(ws[i] !! Bits(k, n))
    requires forall g: nat :: g < 32 * i ==> !FreeRun(ws, g, n)
    ensures (i * 32 + j) / 32 == i && (i * 32 + j) % 32 == j && FreeRun(ws, i * 32 + j, n)
    ensures forall g: nat :: g < i * 32 + j ==> !FreeRun(ws, g, n)
  {
    hide Bits;
    forall g: nat | g < i * 32 + j ensures !FreeRun(ws, g, n) {
      if g >= 32 * i { assert g / 32 == i && g % 32 == g - 32 * i; }
    }
  }

  /** No free frames in the words below the cursor. */
  lemma BelowFull(ws: seq<Word>, limit: nat, cursor: nat, nused: int, n: nat)
    requires n >= 1 && Sound(ws, limit, cursor, nused)
    ensures forall g: nat :: g < 32 * cursor ==> !FreeRun(ws, g, n)
  {
    forall g: nat | g < 32 * cursor ensures !FreeRun(ws, g, n) {
      assert g % 32 in Bits(g % 32, n) && g % 32 in FULL;
    }
  }

  /** A word that is full, or in which no place fits, has no free frames. */
  lemma NextWord(ws: seq<Word>, limit: nat, cursor: nat, nused: int, i: nat, n: nat)
    requires n >= 1 && i < limit && Sound(ws, limit, cursor, nused)
    ensures i < |ws|
    ensures ws[i] == FULL || (forall j: nat :: j + n <= 32 ==> !(ws[i] !! Bits(j, n))) ==>
              forall g: nat :: 32 * i <= g < 32 * (i + 1) ==> !FreeRun(ws, g, n)
  {
    if ws[i] == FULL || (forall j: nat :: j + n <= 32 ==> !(ws[i] !! Bits(j, n))) {
      forall g: nat | 32 * i <= g < 32 * (i + 1) ensures !FreeRun(ws, g, n) {
        assert g / 32 == i && g % 32 in Bits(g % 32, n) && g % 32 in FULL;
      }
    }
  }
}
