/** Single-use MFA backup codes (the `mfa_backup_code` table): generating
    plain codes, replacing a user's codes by their hashes, counting the
    unused ones and consuming one. Randomness and bcrypt are inputs: the
    draws of `Math.random`, the hashes bcrypt produced, and its comparison
    as a function. */
module BackupCodes {
  import opened Common

  /** The symbol drawn for `d`: A-H, J-N, P-Z, then 2-9. */
  function Symbol(d: nat): char
    requires d < 32
  {
    if d < 8 then ('A' as int + d) as char
    else if d < 13 then ('A' as int + d + 1) as char
    else if d < 24 then ('A' as int + d + 2) as char
    else ('2' as int + d - 24) as char
  }

  /** The 32 symbols of a backup code. */
  const Alphabet: string := seq(32, d requires 0 <= d < 32 => Symbol(d))
  const DefaultCount := 8
  const DefaultLength := 10

  /** The alphabet is the text the codes are drawn from. */
  lemma AlphabetText()
    ensures Alphabet == "ABCDEFGHJKLMNPQRSTUVWXYZ23456789"
  {
  }

  /** The alphabet has 32 distinct symbols, upper-case letters and digits
      only, and none of the easily confused I, O, 0 and 1. */
  lemma AlphabetShape()
    ensures |Alphabet| == 32
    ensures forall i, j :: 0 <= i < j < |Alphabet| ==> Alphabet[i] != Alphabet[j]
    ensures forall i :: 0 <= i < |Alphabet| ==> ('A' <= Alphabet[i] <= 'Z' || '2' <= Alphabet[i] <= '9')
    ensures 'I' !in Alphabet && 'O' !in Alphabet && '0' !in Alphabet && '1' !in Alphabet
  {
  }

  /** `randomCode`: `len` symbols, the i-th chosen by the i-th draw of
      `Math.floor(Math.random() * 32)`. */
  method RandomCode(len: nat, draws: seq<int>) returns (code: string)
    requires |draws| >= len
    requires forall i :: 0 <= i < |draws| ==> 0 <= draws[i] < |Alphabet|
    ensures |code| == len
    ensures forall i :: 0 <= i < len ==> code[i] == Alphabet[draws[i]]
    ensures forall i :: 0 <= i < len ==> code[i] in Alphabet
  {
    code := "";
    var i := 0;
    while i < len
      invariant 0 <= i <= len
      invariant |code| == i
      invariant forall j :: 0 <= j < i ==> code[j] == Alphabet[draws[j]]
    {
      code := code + [Alphabet[draws[i]]];
      i := i + 1;
    }
  }

  /** `generatePlainCodes`: collects distinct codes, in the order first
      drawn, until there are `count` of them. `candidates` are the codes
      `randomCode` returns in turn; the collection also stops when they run
      out. */
  method GeneratePlainCodes(count: nat, candidates: seq<string>) returns (codes: seq<string>)
    ensures |codes| <= count
    ensures forall i, j :: 0 <= i < j < |codes| ==> codes[i] != codes[j]
    ensures forall c :: c in codes ==> c in candidates
    ensures |codes| < count ==> forall c :: c in candidates ==> c in codes
  {
    codes := [];
    var k := 0;
    while |codes| < count && k < |candidates|
      invariant 0 <= k <= |candidates|
      invariant |codes| <= count
      invariant forall i, j :: 0 <= i < j < |codes| ==> codes[i] != codes[j]
      invariant forall c :: c in codes ==> c in candidates[..k]
      invariant forall j :: 0 <= j < k ==> candidates[j] in codes
    {
      if candidates[k] !in codes {
        codes := codes + [candidates[k]];
      }
      k := k + 1;
    }
  }

  /** A stored code: its hash and whether it has been used. */
  datatype CodeRow = CodeRow(userId: Id, hash: string, used: bool)

  /** The number of unused codes of a user. */
  function Unused(rows: seq<CodeRow>, userId: Id): (n: nat)
    ensures n <= |rows|
  {
    if rows == [] then 0
    else Unused(rows[..|rows| - 1], userId) + (if rows[|rows| - 1].userId == userId && !rows[|rows| - 1].used then 1 else 0)
  }

  /** Marking one unused code of a user as used lowers that user's count
      by one and leaves every other user's count alone. */
  lemma {:induction false} MarkUsedCount(rows: seq<CodeRow>, i: nat, userId: Id)
    requires i < |rows| && !rows[i].used
    ensures Unused(rows[i := rows[i].(used := true)], userId) ==
      if rows[i].userId == userId then Unused(rows, userId) - 1 else Unused(rows, userId)
  {
    var after := rows[i := rows[i].(used := true)];
    if i < |rows| - 1 {
      assert after[..|after| - 1] == rows[..|rows| - 1][i := rows[i].(used := true)];
      MarkUsedCount(rows[..|rows| - 1], i, userId);
    } else {
      assert after[..|after| - 1] == rows[..|rows| - 1];
    }
  }

  lemma {:induction false} UnusedAppend(a: seq<CodeRow>, b: seq<CodeRow>, userId: Id)
    ensures Unused(a + b, userId) == Unused(a, userId) + Unused(b, userId)
    decreases |b|
  {
    if b == [] {
      assert a + b == a;
    } else {
      assert (a + b)[..|a + b| - 1] == a + b[..|b| - 1];
      UnusedAppend(a, b[..|b| - 1], userId);
    }
  }

  /** The rows of other users. */
  function Others(rows: seq<CodeRow>, userId: Id): (r: seq<CodeRow>)
    ensures forall x :: x in r <==> x in rows && x.userId != userId
  {
    if rows == [] then []
    else
      var rest := Others(rows[..|rows| - 1], userId);
      var last := rows[|rows| - 1];
      assert rows == rows[..|rows| - 1] + [last];
      if last.userId != userId then rest + [last] else rest
  }

  /** The new, unused rows of a user's hashes. */
  function Fresh(userId: Id, hashes: seq<string>): (r: seq<CodeRow>)
    ensures |r| == |hashes|
    ensures forall i :: 0 <= i < |hashes| ==> r[i] == CodeRow(userId, hashes[i], false)
  {
    if hashes == [] then [] else Fresh(userId, hashes[..|hashes| - 1]) + [CodeRow(userId, hashes[|hashes| - 1], false)]
  }

  /** Dropping a user's rows keeps every other user's count. */
  lemma {:induction false} OthersCount(rows: seq<CodeRow>, userId: Id, other: Id)
    ensures Unused(Others(rows, userId), userId) == 0
    ensures other != userId ==> Unused(Others(rows, userId), other) == Unused(rows, other)
  {
    if rows != [] {
      var rest := rows[..|rows| - 1];
      var last := rows[|rows| - 1];
      OthersCount(rest, userId, other);
      if last.userId != userId {
        UnusedAppend(Others(rest, userId), [last], userId);
        UnusedAppend(Others(rest, userId), [last], other);
      }
    }
  }

  /** Fresh rows are all unused codes of their user. */
  lemma {:induction false} FreshCount(userId: Id, hashes: seq<string>, other: Id)
    ensures Unused(Fresh(userId, hashes), userId) == |hashes|
    ensures other != userId ==> Unused(Fresh(userId, hashes), other) == 0
  {
    if hashes != [] {
      FreshCount(userId, hashes[..|hashes| - 1], other);
      UnusedAppend(Fresh(userId, hashes[..|hashes| - 1]), [CodeRow(userId, hashes[|hashes| - 1], false)], userId);
      UnusedAppend(Fresh(userId, hashes[..|hashes| - 1]), [CodeRow(userId, hashes[|hashes| - 1], false)], other);
    }
  }

  /** After the codes are replaced, the user has exactly the new codes
      unused and every other user keeps their count. */
  lemma ReplacedCounts(rows: seq<CodeRow>, userId: Id, hashes: seq<string>, other: Id)
    ensures Unused(Others(rows, userId) + Fresh(userId, hashes), userId) == |hashes|
    ensures other != userId ==> Unused(Others(rows, userId) + Fresh(userId, hashes), other) == Unused(rows, other)
  {
    UnusedAppend(Others(rows, userId), Fresh(userId, hashes), userId);
    UnusedAppend(Others(rows, userId), Fresh(userId, hashes), other);
    OthersCount(rows, userId, other);
    FreshCount(userId, hashes, other);
  }

  /** Whether `row` is an unused code of the user that `code` matches. */
  predicate Usable(row: CodeRow, userId: Id, code: string, matches: (string, string) -> bool) {
    row.userId == userId && !row.used && matches(code, row.hash)
  }

  /** The position of the first usable code, or -1. */
  function FirstUsable(rows: seq<CodeRow>, userId: Id, code: string, matches: (string, string) -> bool): (r: int)
    ensures -1 <= r < |rows|
    ensures r >= 0 ==> Usable(rows[r], userId, code, matches) && forall j :: 0 <= j < r ==> !Usable(rows[j], userId, code, matches)
    ensures r < 0 ==> forall j :: 0 <= j < |rows| ==> !Usable(rows[j], userId, code, matches)
  {
    FindIndex(rows, (row: CodeRow) => Usable(row, userId, code, matches))
  }

  /** Single use: once the only unused code a text matches is consumed,
      the same text matches no unused code, and the count has dropped by
      one. */
  lemma ConsumeOnce(rows: seq<CodeRow>, userId: Id, code: string, matches: (string, string) -> bool)
    requires FirstUsable(rows, userId, code, matches) >= 0
    requires forall i, j :: 0 <= i < j < |rows| && Usable(rows[i], userId, code, matches) ==> !Usable(rows[j], userId, code, matches)
    ensures var i := FirstUsable(rows, userId, code, matches);
      FirstUsable(rows[i := rows[i].(used := true)], userId, code, matches) < 0
    ensures var i := FirstUsable(rows, userId, code, matches);
      Unused(rows[i := rows[i].(used := true)], userId) == Unused(rows, userId) - 1
  {
    var i := FirstUsable(rows, userId, code, matches);
    var after := rows[i := rows[i].(used := true)];
    forall j | 0 <= j < |after|
      ensures !Usable(after[j], userId, code, matches)
    {
      if j != i {
        assert after[j] == rows[j];
      }
    }
    MarkUsedCount(rows, i, userId);
  }

  class BackupCodeTable {
    /** The rows in insertion order. */
    var rows: seq<CodeRow>

    constructor ()
      ensures rows == []
    {
      rows := [];
    }

    /** `getRemainingCount`: the user's unused codes, or 0 when the query
        fails. */
    function GetRemainingCount(userId: Id, fails: bool): (n: nat)
      reads this
      ensures fails ==> n == 0
      ensures !fails ==> n == Unused(rows, userId)
    {
      if fails then 0 else Unused(rows, userId)
    }

    /** `setCodes`: deletes every code of the user, then inserts one unused
        row per hash. A failed delete changes nothing; a failed insert
        leaves the user with no codes at all. A bulk insert with no rows is
        an SQL error, so an empty list fails like a failed insert. */
    method SetCodes(userId: Id, hashes: seq<string>, deleteFails: bool, insertFails: bool) returns (ok: bool)
      modifies this
      ensures ok <==> !deleteFails && !insertFails && hashes != []
      ensures deleteFails ==> rows == old(rows)
      ensures !deleteFails && (insertFails || hashes == []) ==> rows == Others(old(rows), userId)
      ensures ok ==> rows == Others(old(rows), userId) + Fresh(userId, hashes)
    {
      if deleteFails {
        return false;
      }
      rows := Others(rows, userId);
      if insertFails || hashes == [] {
        return false;
      }
      var k := 0;
      ghost var kept := rows;
      while k < |hashes|
        invariant 0 <= k <= |hashes|
        invariant rows == kept + Fresh(userId, hashes[..k])
      {
        assert hashes[..k + 1][..k] == hashes[..k];
        rows := rows + [CodeRow(userId, hashes[k], false)];
        k := k + 1;
      }
      assert hashes[..k] == hashes;
      ok := true;
    }

    /** `consumeIfValid`: an empty code or a failed query gives false;
        otherwise the user's unused codes are compared in table order and
        the first that matches is marked used and true returned. The answer
        is true even when marking fails, and then nothing changes. */
    method ConsumeIfValid(userId: Id, code: Option<string>, matches: (string, string) -> bool,
                          queryFails: bool, updateFails: bool) returns (ok: bool)
      modifies this
      ensures !Truthy(code) || queryFails ==> !ok && rows == old(rows)
      ensures Truthy(code) && !queryFails ==> (ok <==> FirstUsable(old(rows), userId, code.value, matches) >= 0)
      ensures ok && updateFails ==> rows == old(rows)
      ensures ok && !updateFails ==>
        var i := FirstUsable(old(rows), userId, code.value, matches);
        rows == old(rows)[i := old(rows)[i].(used := true)]
      ensures !ok ==> rows == old(rows)
    {
      if !Truthy(code) || queryFails {
        return false;
      }
      var k := 0;
      while k < |rows|
        invariant 0 <= k <= |rows|
        invariant forall j :: 0 <= j < k ==> !Usable(rows[j], userId, code.value, matches)
      {
        if rows[k].userId == userId && !rows[k].used && matches(code.value, rows[k].hash) {
          assert FirstUsable(rows, userId, code.value, matches) == k;
          if !updateFails {
            rows := rows[k := rows[k].(used := true)];
          }
          return true;
        }
        k := k + 1;
      }
      ok := false;
    }
  }
}
