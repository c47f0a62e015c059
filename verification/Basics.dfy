/** The unsigned integer widths of the protocol and the two outcome types shared by every module. */
module Basics {
  const TWO_TO_THE_32: nat := 0x1_0000_0000

  type u8 = n: nat | n < 0x100
  type u16 = n: nat | n < 0x1_0000
  type u32 = n: nat | n < 0x1_0000_0000
  type u64 = n: nat | n < 0x1_0000_0000_0000_0000

  const MAX_U64: u64 := 0xFFFF_FFFF_FFFF_FFFF

  /** The `as u32` and `as u16` casts, which keep the low bits. */
  function ToU32(n: nat): u32 {
    if n < TWO_TO_THE_32 then n else n % TWO_TO_THE_32
  }

  function ToU16(n: nat): u16 {
    if n < 0x1_0000 then n else n % 0x1_0000
  }

  /** The programs an agent can be. */
  datatype AgentKind = Codex | Claude | Grok | Pi | OpenCode

  datatype Option<+T> = None | Some(value: T)

  datatype Result<+T, +E> = Ok(value: T) | Err(error: E)

  lemma Associative<T>(a: seq<T>, b: seq<T>, c: seq<T>)
    ensures a + b + c == a + (b + c)
  {
  }

  lemma Regroup<T>(a: seq<T>, x: T, b: seq<T>)
    ensures a + ([x] + b) == (a + [x]) + b
  {
  }

  lemma SplitAt<T>(s: seq<T>, n: nat)
    requires n <= |s|
    ensures s == s[..n] + s[n..]
  {
  }
}
