/**
 * The level's texture reference-count table (`Level::texture_ref_count_`,
 * a `std::map<std::string, uint32_t>`) as a value, with the update that
 * `increase_texture_refcount` and `decrease_texture_refcount` apply to it.
 * Counts are `uint32_t`, so `++` and `--` wrap modulo 2^32.
 */
module TextureRefCounts {
  import opened Basics

  type RefTable = map<string, U32>

  /** How many references `table` records for `path` (0 when absent). */
  function Count(table: RefTable, path: string): nat
  {
    if path in table then table[path] else 0
  }

  /** `increase_texture_refcount`: insert with 1, or increment in place. */
  function Increased(table: RefTable, path: string): RefTable
  {
    if path in table then table[path := (table[path] + 1) % U32Limit] else table[path := 1]
  }

  /** `decrease_texture_refcount` once its presence assertion holds: decrement, erase at 0. */
  function Decreased(table: RefTable, path: string): RefTable
    requires path in table
  {
    var c := (table[path] - 1) % U32Limit;
    if c == 0 then table - {path} else table[path := c]
  }

  /** `active_textures`: the key set of the table. */
  function ActiveTextures(table: RefTable): set<string>
  {
    table.Keys
  }

  /** No path is recorded with a count of zero. */
  ghost predicate NoZeroCounts(table: RefTable)
  {
    forall p :: p in table ==> table[p] != 0
  }

  /** Increasing an absent path inserts it with count 1; a present path gains exactly 1 (below the
      uint32 limit); every other path keeps its count and its presence. */
  lemma IncreaseAddsOne(table: RefTable, path: string)
    requires Count(table, path) < U32Limit - 1
    ensures path in Increased(table, path)
    ensures Count(Increased(table, path), path) == Count(table, path) + 1
    ensures path !in table ==> Increased(table, path)[path] == 1
    ensures ActiveTextures(Increased(table, path)) == ActiveTextures(table) + {path}
    ensures forall q :: q != path ==> Count(Increased(table, path), q) == Count(table, q)
  {
  }

  /** At the uint32 limit the `++` wraps: the path stays in the table with count 0. */
  lemma IncreaseWrapsAtLimit(table: RefTable, path: string)
    requires Count(table, path) == U32Limit - 1
    ensures path in Increased(table, path) && Increased(table, path)[path] == 0
  {
  }

  /** Decreasing subtracts one; the entry disappears exactly when its count was 1; nothing else changes. */
  lemma DecreaseSubtractsOne(table: RefTable, path: string)
    requires path in table && table[path] != 0
    ensures Count(Decreased(table, path), path) == table[path] - 1
    ensures path in Decreased(table, path) <==> table[path] > 1
    ensures forall q :: q != path ==> Count(Decreased(table, path), q) == Count(table, q)
    ensures ActiveTextures(Decreased(table, path)) <= ActiveTextures(table)
  {
  }

  /** A decrease never leaves a zero entry behind. */
  lemma DecreaseKeepsNoZeroCounts(table: RefTable, path: string)
    requires path in table && NoZeroCounts(table)
    ensures NoZeroCounts(Decreased(table, path))
  {
  }

  /** An increase keeps the table free of zero entries unless the count wraps. */
  lemma IncreaseKeepsNoZeroCounts(table: RefTable, path: string)
    requires NoZeroCounts(table) && Count(table, path) < U32Limit - 1
    ensures NoZeroCounts(Increased(table, path))
  {
  }

  /** While no entry is zero, the active textures are exactly the paths counted at least once. */
  lemma ActiveTexturesAreCounted(table: RefTable)
    requires NoZeroCounts(table)
    ensures forall p :: p in ActiveTextures(table) <==> Count(table, p) >= 1
  {
  }

  /** `n` successive increases of `path`. */
  function IncreasedN(table: RefTable, path: string, n: nat): RefTable
  {
    if n == 0 then table else Increased(IncreasedN(table, path, n - 1), path)
  }

  /** `n` successive decreases of `path`; `None` when one of them would fail its assertion. */
  function DecreasedN(table: RefTable, path: string, n: nat): Option<RefTable>
  {
    if n == 0 then Some(table)
    else if path !in table then None
    else DecreasedN(Decreased(table, path), path, n - 1)
  }

  /** Below the uint32 limit, `n` increases add `n` to the path's count and touch nothing else. */
  lemma {:induction false} IncreasedNCount(table: RefTable, path: string, n: nat)
    requires Count(table, path) + n < U32Limit
    ensures Count(IncreasedN(table, path, n), path) == Count(table, path) + n
    ensures IncreasedN(table, path, n) - {path} == table - {path}
    ensures (path in table && table[path] != 0) || n > 0 ==> path in IncreasedN(table, path, n) && IncreasedN(table, path, n)[path] != 0
    ensures path !in table && n == 0 ==> path !in IncreasedN(table, path, n)
  {
    if n > 0 {
      IncreasedNCount(table, path, n - 1);
      var prev := IncreasedN(table, path, n - 1);
      assert IncreasedN(table, path, n) - {path} == prev - {path};
    }
  }

  /** A decrease undoes the increase just before it, as long as neither wraps. */
  lemma DecreaseUndoesIncrease(table: RefTable, path: string)
    requires path in table ==> table[path] != 0
    requires Count(table, path) < U32Limit - 1
    ensures Decreased(Increased(table, path), path) == table
  {
    if path !in table {
      assert Increased(table, path) - {path} == table;
    }
  }

  /** `n` increases followed by `n + k` decreases behave like `k` decreases of the original table:
      the increases are undone exactly. */
  lemma {:induction false} IncreaseThenDecrease(table: RefTable, path: string, n: nat, k: nat)
    requires path in table ==> table[path] != 0
    requires Count(table, path) + n < U32Limit
    ensures DecreasedN(IncreasedN(table, path, n), path, n + k) == DecreasedN(table, path, k)
  {
    if n > 0 {
      var prev := IncreasedN(table, path, n - 1);
      IncreasedNCount(table, path, n - 1);
      DecreaseUndoesIncrease(prev, path);
      assert DecreasedN(IncreasedN(table, path, n), path, n + k) == DecreasedN(prev, path, n - 1 + k);
      IncreaseThenDecrease(table, path, n - 1, k);
    }
  }

  /** After `n` increases and `n` decreases of an unused path, the table is as before and the path
      is not an active texture; one further decrease fails. */
  lemma BalancedUseLeavesTextureInactive(table: RefTable, path: string, n: nat)
    requires path !in table && n < U32Limit
    ensures DecreasedN(IncreasedN(table, path, n), path, n) == Some(table)
    ensures path !in ActiveTextures(DecreasedN(IncreasedN(table, path, n), path, n).value)
    ensures DecreasedN(IncreasedN(table, path, n), path, n + 1) == None
  {
    IncreaseThenDecrease(table, path, n, 0);
    IncreaseThenDecrease(table, path, n, 1);
  }
}
