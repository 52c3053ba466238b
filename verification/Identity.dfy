/** HMAC-SHA-256 (section 2 of RFC 2104) and the identity check of the switch. */
module Identity {
  import opened Wrappers
  import opened Protocol
  import opened Bits
  import opened Framing
  import opened Sha256Spec
  import opened Sha256

  /** The key brought to one block: hashed if it is longer, then filled with zeros. */
  function KeyBlock(key: seq<byte>): (k: seq<byte>)
    ensures |k| == BLOCK
  {
    var short := if |key| > BLOCK then Sha256Spec.Sha256(key) else key;
    short + Zeros(BLOCK - |short|)
  }

  function XorEach(k: seq<byte>, pad: byte): (r: seq<byte>)
    ensures |r| == |k|
  {
    seq(|k|, i requires 0 <= i < |k| => On8(XOR, k[i], pad))
  }

  /** H(K XOR opad, H(K XOR ipad, text)). */
  function Hmac(key: seq<byte>, text: seq<byte>): (d: seq<byte>)
    ensures |d| == DIGEST
  {
    var k := KeyBlock(key);
    Sha256Spec.Sha256(XorEach(k, 0x5c) + Sha256Spec.Sha256(XorEach(k, 0x36) + text))
  }

  /**
   * A key of at most a block is as good as the same key filled up with zeros to at most a block, and a longer one as
   * good as its digest.
   */
  lemma KeysAlike(key: seq<byte>, k: nat, text: seq<byte>)
    ensures |key| + k <= BLOCK ==> Hmac(key + Zeros(k), text) == Hmac(key, text)
    ensures |key| > BLOCK ==> Hmac(key, text) == Hmac(Sha256Spec.Sha256(key), text)
  {
    hide Sha256Spec.Sha256, XorEach;
    if |key| + k <= BLOCK {
      assert key + Zeros(k) + Zeros(BLOCK - |key| - k) == key + Zeros(BLOCK - |key|);
    }
  }

  /** `hmac_sha256`: two streaming contexts over the padded key. */
  method HmacSha256(key: seq<byte>, message: seq<byte>) returns (digest: seq<byte>)
    requires 8 * |key| < U64 && 8 * (BLOCK + |message|) < U64
    ensures digest == Hmac(key, message)
  {
    hide Sha256Spec.Sha256, On8, Bitwise;
    var block := new byte[BLOCK](_ => 0);
    if |key| > BLOCK {
      var hashed := Sha256Hash(key);
      forall i | 0 <= i < DIGEST {
        block[i] := hashed[i];
      }
      assert block[..] == hashed + Zeros(BLOCK - DIGEST);
    } else {
      forall i | 0 <= i < |key| {
        block[i] := key[i];
      }
      assert block[..] == key + Zeros(BLOCK - |key|);
    }
    ghost var k := KeyBlock(key);
    assert block[..] == k;
    var ipad, opad := new byte[BLOCK](_ => 0), new byte[BLOCK](_ => 0);
    var i := 0;
    while i < BLOCK
      invariant i <= BLOCK && block[..] == k
      invariant forall j | 0 <= j < i :: ipad[j] == On8(XOR, block[j], 0x36) && opad[j] == On8(XOR, block[j], 0x5c)
    {
      ipad[i], opad[i] := On8(XOR, block[i], 0x36), On8(XOR, block[i], 0x5c);
      i := i + 1;
    }
    assert ipad[..] == XorEach(k, 0x36) && opad[..] == XorEach(k, 0x5c);
    var inner := HashTwo(ipad[..], message);
    digest := HashTwo(opad[..], inner);
  }

  method HashTwo(first: seq<byte>, second: seq<byte>) returns (digest: seq<byte>)
    requires 8 * (|first| + |second|) < U64
    ensures digest == Sha256Spec.Sha256(first + second)
  {
    hide Sha256Spec.Sha256;
    assert [first, second][1..] == [second] && Joined([second]) == second;
    digest := HashInPieces([first, second]);
  }

  /** The comparison that looks at every byte before it answers. */
  method DigestEquals(a: seq<byte>, b: seq<byte>, n: nat) returns (equal: bool)
    requires n <= |a| && n <= |b|
    ensures equal <==> a[..n] == b[..n]
  {
    hide Bitwise, On8;
    var diff: byte := 0;
    var i := 0;
    while i < n
      invariant i <= n && (diff == 0 <==> a[..i] == b[..i])
    {
      DiffZero(diff, a[i], b[i]);
      diff := On8(OR, diff, On8(XOR, a[i], b[i]));
      assert a[..i + 1] == a[..i] + [a[i]] && b[..i + 1] == b[..i] + [b[i]];
      i := i + 1;
    }
    equal := diff == 0;
  }

  lemma DiffZero(diff: byte, x: byte, y: byte)
    ensures On8(OR, diff, On8(XOR, x, y)) == 0 <==> diff == 0 && x == y
  {
    ZeroTests(x, y);
    ZeroTests(diff, Bitwise(XOR, x, y));
  }

  // ---- The identity store -------------------------------------------------------------------------------

  const GUEST_PASSWORD: seq<byte> := [112, 97, 115, 115, 119, 111, 114, 100]

  /** The low octets of the characters. */
  function Ascii(text: string): seq<byte> {
    seq(|text|, i requires 0 <= i < |text| => text[i] as int % 0x100)
  }

  lemma GuestPasswordIs()
    ensures GUEST_PASSWORD == Ascii("password")
  {
  }

  /** The password a username answers with: its own, or the guest one if strangers are let in. */
  function PasswordFor(store: map<string, seq<byte>>, username: string, allowGuest: bool): Option<seq<byte>> {
    if username in store then Some(store[username])
    else if allowGuest then Some(GUEST_PASSWORD)
    else None
  }

  /** An answer is right if it is the HMAC of a real challenge under the user's password. */
  predicate RightAnswer(
    store: map<string, seq<byte>>, challenge: seq<byte>, answer: seq<byte>, username: string, allowGuest: bool)
  {
    challenge != [] && PasswordFor(store, username, allowGuest).Some?
    && answer == Hmac(PasswordFor(store, username, allowGuest).value, challenge)
  }

  class IdentityManager {
    var passwordByUsername: map<string, seq<byte>>

    constructor ()
      ensures passwordByUsername == map[]
    {
      passwordByUsername := map[];
    }

    /** `rows` are the (username, password) cells of a table, after its header; later rows win. */
    method Extend(rows: seq<(string, seq<byte>)>)
      modifies this
      ensures passwordByUsername == StoreAfter(old(passwordByUsername), rows)
    {
      var r := 0;
      assert rows[..0] == [];
      while r < |rows|
        invariant r <= |rows| && passwordByUsername == StoreAfter(old(passwordByUsername), rows[..r])
      {
        if rows[r].0 != "" {
          passwordByUsername := passwordByUsername[rows[r].0 := rows[r].1];
        }
        assert rows[..r + 1][..r] == rows[..r];
        r := r + 1;
      }
      assert rows[..r] == rows;
    }

    method VerifyIdentity(challenge: seq<byte>, answer: seq<byte>, username: string, allowGuest: bool)
      returns (ok: bool)
      requires 8 * (BLOCK + |challenge|) < U64
      requires forall u | u in passwordByUsername :: 8 * |passwordByUsername[u]| < U64
      ensures ok <==> RightAnswer(passwordByUsername, challenge, answer, username, allowGuest)
      ensures challenge == [] ==> !ok
      ensures username !in passwordByUsername && !allowGuest ==> !ok
      ensures username !in passwordByUsername && allowGuest && challenge != [] ==>
        (ok <==> answer == Hmac(Ascii("password"), challenge))
      ensures username in passwordByUsername && challenge != [] ==>
        (ok <==> answer == Hmac(passwordByUsername[username], challenge))
    {
      hide Hmac, Ascii;
      GuestPasswordIs();
      if |answer| != DIGEST || |challenge| == 0 {
        return false;
      }
      var password: seq<byte>;
      if username in passwordByUsername {
        password := passwordByUsername[username];
      } else if !allowGuest {
        return false;
      } else {
        password := GUEST_PASSWORD;
      }
      var computed := HmacSha256(password, challenge);
      ok := DigestEquals(computed, answer, DIGEST);
      assert computed[..DIGEST] == computed && answer[..DIGEST] == answer;
    }
  }

  function StoreAfter(store: map<string, seq<byte>>, rows: seq<(string, seq<byte>)>): map<string, seq<byte>> {
    if rows == [] then store
    else
      var before, row := StoreAfter(store, rows[..|rows| - 1]), rows[|rows| - 1];
      if row.0 == "" then before else before[row.0 := row.1]
  }

  /** Row `i` is the last one with the name `u`. */
  predicate IsLastRow(rows: seq<(string, seq<byte>)>, u: string, i: nat) {
    i < |rows| && rows[i].0 == u && forall j | i < j < |rows| :: rows[j].0 != u
  }

  lemma OneMoreRow(store: map<string, seq<byte>>, rows: seq<(string, seq<byte>)>)
    requires rows != []
    ensures var before, row := rows[..|rows| - 1], rows[|rows| - 1];
      StoreAfter(store, rows)
      == if row.0 == "" then StoreAfter(store, before) else StoreAfter(store, before)[row.0 := row.1]
  {
  }

  /** A user's password is that of the last row with the name. */
  lemma {:induction false} LastRowWins(store: map<string, seq<byte>>, rows: seq<(string, seq<byte>)>, u: string, i: nat)
    requires u != "" && IsLastRow(rows, u, i)
    ensures u in StoreAfter(store, rows) && StoreAfter(store, rows)[u] == rows[i].1
  {
    hide StoreAfter;
    OneMoreRow(store, rows);
    if i < |rows| - 1 {
      LastRowWins(store, rows[..|rows| - 1], u, i);
    }
  }

  /** Users without a row keep what they had; a row without a name gives nobody a password. */
  lemma {:induction false} OthersKeepTheirs(store: map<string, seq<byte>>, rows: seq<(string, seq<byte>)>, u: string)
    requires u == "" || forall j | 0 <= j < |rows| :: rows[j].0 != u
    ensures u in StoreAfter(store, rows) <==> u in store
    ensures u in store ==> StoreAfter(store, rows)[u] == store[u]
  {
    hide StoreAfter;
    if rows == [] {
      NoRows(store);
    } else {
      OneMoreRow(store, rows);
      OthersKeepTheirs(store, rows[..|rows| - 1], u);
    }
  }

  lemma NoRows(store: map<string, seq<byte>>)
    ensures StoreAfter(store, []) == store
  {
  }

  /** The browser's answer to a challenge: it signs with "password" when it was given no password. */
  function BrowserAnswer(password: seq<byte>, challenge: seq<byte>): seq<byte> {
    Hmac(if password == [] then GUEST_PASSWORD else password, challenge)
  }

  /**
   * The browser logs a known user in whenever that user's password is not empty. For an empty one the two sides
   * sign with different keys, and the login succeeds only if those keys happen to give the same HMAC.
   */
  lemma BrowserLogsIn(store: map<string, seq<byte>>, challenge: seq<byte>, username: string, allowGuest: bool)
    requires challenge != [] && username in store
    ensures RightAnswer(store, challenge, BrowserAnswer(store[username], challenge), username, allowGuest)
       <==> store[username] != [] || Hmac(GUEST_PASSWORD, challenge) == Hmac([], challenge)
  {
  }
}
