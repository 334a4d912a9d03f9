/** Shared vocabulary of the arena model: optional values and the player-letter table. */
module Base {

  datatype Option<T> = None | Some(value: T)

  /** The player letters A, B, C, D are numbered 0, 1, 2, 3. A letter is a plain `nat`
      because an `attach` request may name a key outside the table. */
  const LETTER_COUNT: nat := 4

  /** How many letters `PLAYER_LETTERS.slice(0, n)` keeps. JavaScript's `slice` counts
      a negative end from the back of the four-letter table and caps a large end at four. */
  function SlotCount(n: int): (k: nat)
    ensures k <= LETTER_COUNT
    ensures 0 <= n <= LETTER_COUNT ==> k == n
    ensures n >= LETTER_COUNT ==> k == LETTER_COUNT
    ensures -(LETTER_COUNT as int) <= n < 0 ==> k == LETTER_COUNT + n
    ensures n < -(LETTER_COUNT as int) ==> k == 0
  {
    if n < 0 then (if LETTER_COUNT + n < 0 then 0 else LETTER_COUNT + n)
    else if n > LETTER_COUNT then LETTER_COUNT
    else n
  }

  /** `playerCount || 2`: a missing or zero player count falls back to two players,
      any other decoded number is kept as it is. */
  function EffectivePlayerCount(raw: Option<int>): (n: int)
    ensures n != 0
    ensures raw.Some? && raw.value != 0 ==> n == raw.value
    ensures raw.None? ==> n == 2
  {
    if raw.None? || raw.value == 0 then 2 else raw.value
  }

  /** The first `n` letters. */
  function Range(n: nat): (s: set<nat>)
    ensures forall l: nat :: l in s <==> l < n
  {
    if n == 0 then {} else Range(n - 1) + {n - 1}
  }

  lemma {:induction false} RangeSize(n: nat)
    ensures |Range(n)| == n
  {
    if n > 0 {
      RangeSize(n - 1);
      assert n - 1 !in Range(n - 1);
    }
  }

  /** A set of letters drawn from the first `n` letters has at most `n` members. */
  lemma {:induction false} BoundedLetters(s: set<nat>, n: nat)
    requires forall l: nat :: l in s ==> l < n
    ensures |s| <= n
  {
    if n > 0 {
      var rest := s - {n - 1};
      BoundedLetters(rest, n - 1);
      assert s <= rest + {n - 1};
    } else {
      assert s == {};
    }
  }
}
