/** Decoding a router call: the traded token is the first calldata word that looks like an
    address and is neither wrapped BNB nor the router itself. */
module Gmgn {
  import opened Common

  type Byte = x: nat | x < 256
  type Address = seq<Byte>

  const SELECTOR: seq<Byte> := [0x4d, 0x81, 0x9a, 0x2a]
  const WBNB: Address := [0xbb, 0x4c, 0xdb, 0x9c, 0xbd, 0x36, 0xb0, 0x1b, 0xd1, 0xcb,
                          0xae, 0xbf, 0x2d, 0xe0, 0x8d, 0x91, 0x73, 0xbc, 0x09, 0x5c]
  const ROUTER: Address := [0x1d, 0xe4, 0x60, 0xf3, 0x63, 0xaf, 0x91, 0x0f, 0x51, 0x72,
                            0x6d, 0xef, 0x18, 0x8f, 0x90, 0x04, 0x27, 0x6b, 0xf4, 0xbc]

  datatype Side = Buy | Sell

  datatype Swap = Swap(token: Address, side: Side)

  predicate IsGmgn(input: seq<Byte>) {
    |input| >= 4 && input[..4] == SELECTOR
  }

  function WordAt(body: seq<Byte>, i: nat): seq<Byte>
    requires 32 * i + 32 <= |body|
  {
    body[32 * i..32 * i + 32]
  }

  /** Left-padded, with something in the high four bytes, and not one of the two fixed addresses. */
  predicate IsToken(word: seq<Byte>)
    requires |word| == 32
  {
    && (forall i :: 0 <= i < 12 ==> word[i] == 0)
    && (exists i :: 12 <= i < 16 && word[i] != 0)
    && word[12..32] != WBNB && word[12..32] != ROUTER
  }

  /** The first token word from word `i` on. */
  function FirstToken(body: seq<Byte>, i: nat): (r: Option<Address>)
    ensures r.Some? <==> exists k :: i <= k && 32 * k + 32 <= |body| && IsToken(WordAt(body, k))
    decreases |body| - 32 * i
  {
    if 32 * i + 32 > |body| then None
    else if IsToken(WordAt(body, i)) then Some(WordAt(body, i)[12..32])
    else FirstToken(body, i + 1)
  }

  function Decode(input: seq<Byte>, value: nat): Option<Swap> {
    if !IsGmgn(input) then None
    else
      match FirstToken(input[4..], 0)
      case None => None
      case Some(token) => Some(Swap(token, if value > 0 then Buy else Sell))
  }

  /** It is the first: a token decoded is a token word, and no word before it is one. */
  lemma {:induction false} DecodesFirst(body: seq<Byte>, i: nat)
    requires FirstToken(body, i).Some?
    ensures exists k :: i <= k && 32 * k + 32 <= |body| && FirstToken(body, i) == Some(WordAt(body, k)[12..32]) && IsToken(WordAt(body, k))
                        && forall j :: i <= j < k ==> !IsToken(WordAt(body, j))
    decreases |body| - 32 * i
  {
    if !IsToken(WordAt(body, i)) {
      DecodesFirst(body, i + 1);
    }
  }

  /** Over the bytes of the call: a token word at offset `o`, twelve zeroes, then an address
      whose first four bytes are not all zero and which is neither wrapped BNB nor the router. */
  predicate TokenAt(input: seq<Byte>, o: nat) {
    && o + 32 <= |input|
    && (forall i :: o <= i < o + 12 ==> input[i] == 0)
    && (input[o + 12] != 0 || input[o + 13] != 0 || input[o + 14] != 0 || input[o + 15] != 0)
    && input[o + 12..o + 32] != [0xbb, 0x4c, 0xdb, 0x9c, 0xbd, 0x36, 0xb0, 0x1b, 0xd1, 0xcb,
                                 0xae, 0xbf, 0x2d, 0xe0, 0x8d, 0x91, 0x73, 0xbc, 0x09, 0x5c]
    && input[o + 12..o + 32] != [0x1d, 0xe4, 0x60, 0xf3, 0x63, 0xaf, 0x91, 0x0f, 0x51, 0x72,
                                 0x6d, 0xef, 0x18, 0x8f, 0x90, 0x04, 0x27, 0x6b, 0xf4, 0xbc]
  }

  predicate HasSelector(input: seq<Byte>) {
    |input| >= 4 && input[0] == 0x4d && input[1] == 0x81 && input[2] == 0x9a && input[3] == 0x2a
  }

  lemma WordIs(input: seq<Byte>, k: nat, o: nat)
    requires |input| >= 4 && 32 * k + 32 <= |input[4..]| && o == 32 * k + 4
    ensures WordAt(input[4..], k) == input[o..o + 32]
    ensures WordAt(input[4..], k)[12..32] == input[o + 12..o + 32]
  {
  }

  lemma TokenAtMeans(input: seq<Byte>, k: nat, o: nat)
    requires |input| >= 4 && 32 * k + 32 <= |input[4..]| && o == 32 * k + 4
    ensures IsToken(WordAt(input[4..], k)) <==> TokenAt(input, o)
  {
    var word := WordAt(input[4..], k);
    WordIs(input, k, o);
    assert forall i :: 0 <= i < 32 ==> word[i] == input[o + i];
    assert (forall i :: 0 <= i < 12 ==> word[i] == 0) <==> (forall i :: o <= i < o + 12 ==> input[i] == 0) by {
      assert forall i :: o <= i < o + 12 ==> input[i] == word[i - o];
    }
    assert (exists i :: 12 <= i < 16 && word[i] != 0) <==> word[12] != 0 || word[13] != 0 || word[14] != 0 || word[15] != 0;
  }

  /** What a decoded call is: the four selector bytes, a token word with none before it, and the
      side by whether value is attached. */
  ghost predicate Decoded(input: seq<Byte>, value: nat, swap: Swap, k: nat) {
    && HasSelector(input) && TokenAt(input, 32 * k + 4)
    && (forall j :: 0 <= j < k ==> !TokenAt(input, 32 * j + 4))
    && swap.token == input[32 * k + 16..32 * k + 36]
    && (swap.side == Buy <==> value > 0)
  }

  /** The first token word of the body, counted in words. */
  ghost predicate FirstWord(body: seq<Byte>, k: nat) {
    && 32 * k + 32 <= |body| && IsToken(WordAt(body, k))
    && forall j :: 0 <= j < k ==> !IsToken(WordAt(body, j))
  }

  lemma NoneBefore(input: seq<Byte>, k: nat)
    requires |input| >= 4 && FirstWord(input[4..], k)
    ensures forall j :: 0 <= j < k ==> !TokenAt(input, 32 * j + 4)
  {
    forall j | 0 <= j < k ensures !TokenAt(input, 32 * j + 4) {
      TokenAtMeans(input, j, 32 * j + 4);
    }
  }

  lemma FirstWordIs(input: seq<Byte>, k: nat)
    requires |input| >= 4 && FirstWord(input[4..], k)
    ensures TokenAt(input, 32 * k + 4) && WordAt(input[4..], k)[12..32] == input[32 * k + 16..32 * k + 36]
  {
    TokenAtMeans(input, k, 32 * k + 4);
    WordIs(input, k, 32 * k + 4);
  }

  lemma FirstWordMeans(input: seq<Byte>, value: nat, swap: Swap, k: nat)
    requires IsGmgn(input) && FirstWord(input[4..], k)
    requires swap.token == WordAt(input[4..], k)[12..32] && (swap.side == Buy <==> value > 0)
    ensures Decoded(input, value, swap, k)
  {
    FirstWordIs(input, k);
    NoneBefore(input, k);
  }

  lemma FoundMeans(input: seq<Byte>, value: nat) returns (k: nat)
    requires IsGmgn(input) && FirstToken(input[4..], 0).Some?
    ensures Decode(input, value).Some? && Decoded(input, value, Decode(input, value).value, k)
  {
    var body := input[4..];
    DecodesFirst(body, 0);
    k :| 0 <= k && 32 * k + 32 <= |body| && FirstToken(body, 0) == Some(WordAt(body, k)[12..32]) && IsToken(WordAt(body, k))
         && forall j :: 0 <= j < k ==> !IsToken(WordAt(body, j));
    FirstWordMeans(input, value, Decode(input, value).value, k);
  }

  lemma NotFoundMeans(input: seq<Byte>, k: nat)
    requires IsGmgn(input) && FirstToken(input[4..], 0).None?
    ensures !TokenAt(input, 32 * k + 4)
  {
    if 32 * k + 32 <= |input[4..]| {
      TokenAtMeans(input, k, 32 * k + 4);
    }
  }

  /** Exactly when a call decodes, and to what. */
  lemma DecodeMeans(input: seq<Byte>, value: nat)
    ensures match Decode(input, value)
            case Some(swap) => exists k :: Decoded(input, value, swap, k)
            case None => !HasSelector(input) || forall k: nat :: !TokenAt(input, 32 * k + 4)
  {
    if IsGmgn(input) {
      if FirstToken(input[4..], 0).Some? {
        var k := FoundMeans(input, value);
      } else {
        forall k: nat ensures !TokenAt(input, 32 * k + 4) {
          NotFoundMeans(input, k);
        }
      }
    }
  }

  /** The scan: word by word, skipping what is not a token, stopping at the first that is. */
  method DecodeCall(input: seq<Byte>, value: nat) returns (swap: Option<Swap>)
    ensures swap == Decode(input, value)
  {
    if !IsGmgn(input) {
      return None;
    }
    var body := input[4..];
    var token: Option<Address> := None;
    var i := 0;
    while 32 * i + 32 <= |body|
      invariant token == None && FirstToken(body, 0) == FirstToken(body, i)
      decreases |body| - 32 * i
    {
      var word := WordAt(body, i);
      i := i + 1;
      if exists j :: 0 <= j < 12 && word[j] != 0 {
        continue;
      }
      if forall j :: 12 <= j < 16 ==> word[j] == 0 {
        continue;
      }
      var addr := word[12..32];
      if addr == WBNB || addr == ROUTER {
        continue;
      }
      token := Some(addr);
      break;
    }
    if token.None? {
      return None;
    }
    return Some(Swap(token.value, if value > 0 then Buy else Sell));
  }
}
