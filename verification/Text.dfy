/** Go's `unicode.IsSpace` and `strings.TrimSpace` on sequences of code points. */
module Text {
  predicate IsSpace(c: char) {
    var n := c as int;
    || 9 <= n <= 13 || n == 0x20 || n == 0x85 || n == 0xA0 || n == 0x1680
    || 0x2000 <= n <= 0x200A || n == 0x2028 || n == 0x2029 || n == 0x202F
    || n == 0x205F || n == 0x3000
  }

  predicate AllSpace(s: string) {
    forall i :: 0 <= i < |s| ==> IsSpace(s[i])
  }

  function TrimLeft(s: string): string {
    if s != [] && IsSpace(s[0]) then TrimLeft(s[1..]) else s
  }

  function TrimRight(s: string): string {
    if s != [] && IsSpace(s[|s| - 1]) then TrimRight(s[..|s| - 1]) else s
  }

  function TrimSpace(s: string): string {
    TrimRight(TrimLeft(s))
  }

  /** Nothing to trim at either end. */
  predicate Trimmed(s: string) {
    s == [] || (!IsSpace(s[0]) && !IsSpace(s[|s| - 1]))
  }

  lemma {:induction false} TrimLeftPad(s: string) returns (pad: string)
    ensures AllSpace(pad) && s == pad + TrimLeft(s)
    ensures TrimLeft(s) == [] || !IsSpace(TrimLeft(s)[0])
  {
    if s != [] && IsSpace(s[0]) {
      var rest := TrimLeftPad(s[1..]);
      pad := [s[0]] + rest;
    } else {
      pad := [];
    }
  }

  lemma {:induction false} TrimRightPad(s: string) returns (pad: string)
    ensures AllSpace(pad) && s == TrimRight(s) + pad
    ensures TrimRight(s) == [] || !IsSpace(TrimRight(s)[|TrimRight(s)| - 1])
    ensures TrimRight(s) != [] ==> TrimRight(s)[0] == s[0]
  {
    if s != [] && IsSpace(s[|s| - 1]) {
      var rest := TrimRightPad(s[..|s| - 1]);
      pad := rest + [s[|s| - 1]];
    } else {
      pad := [];
    }
  }

  /** A string is its trimmed core between two paddings of spaces. */
  lemma TrimPads(s: string) returns (left: string, right: string)
    ensures AllSpace(left) && AllSpace(right)
    ensures s == left + TrimSpace(s) + right
    ensures Trimmed(TrimSpace(s))
  {
    left := TrimLeftPad(s);
    right := TrimRightPad(TrimLeft(s));
  }

  lemma {:induction false} TrimLeftSkips(left: string, core: string)
    requires AllSpace(left)
    requires core == [] || !IsSpace(core[0])
    ensures TrimLeft(left + core) == core
  {
    if left == [] {
      assert left + core == core;
    } else {
      assert (left + core)[1..] == left[1..] + core;
      TrimLeftSkips(left[1..], core);
    }
  }

  lemma {:induction false} TrimRightSkips(core: string, right: string)
    requires AllSpace(right)
    requires core == [] || !IsSpace(core[|core| - 1])
    ensures TrimRight(core + right) == core
  {
    if right == [] {
      assert core + right == core;
    } else {
      assert (core + right)[..|core + right| - 1] == core + right[..|right| - 1];
      TrimRightSkips(core, right[..|right| - 1]);
    }
  }

  lemma {:induction false} TrimAllSpace(s: string)
    requires AllSpace(s)
    ensures TrimSpace(s) == []
  {
    assert s + [] == s;
    TrimLeftSkips(s, []);
  }

  /** Padding with spaces never changes the trimmed core. */
  lemma TrimUnique(left: string, core: string, right: string)
    requires AllSpace(left) && AllSpace(right) && Trimmed(core)
    ensures TrimSpace(left + core + right) == core
  {
    if core == [] {
      TrimAllSpace(left + core + right);
    } else {
      assert left + core + right == left + (core + right);
      TrimLeftSkips(left, core + right);
      TrimRightSkips(core, right);
    }
  }

  lemma TrimOfTrimmed(s: string)
    requires Trimmed(s)
    ensures TrimSpace(s) == s
  {
    assert [] + s + [] == s;
    TrimUnique([], s, []);
  }

  lemma TrimIdempotent(s: string)
    ensures Trimmed(TrimSpace(s)) && TrimSpace(TrimSpace(s)) == TrimSpace(s)
  {
    var left, right := TrimPads(s);
    TrimOfTrimmed(TrimSpace(s));
  }

  lemma TrimLeadingSpaces(pad: string, s: string)
    requires AllSpace(pad)
    ensures TrimSpace(pad + s) == TrimSpace(s)
  {
    var left, right := TrimPads(s);
    assert pad + s == (pad + left) + TrimSpace(s) + right;
    TrimUnique(pad + left, TrimSpace(s), right);
  }

  lemma TrimEmpty(s: string)
    ensures TrimSpace(s) == [] <==> AllSpace(s)
  {
    var left, right := TrimPads(s);
    if AllSpace(s) { TrimAllSpace(s); }
  }
}
