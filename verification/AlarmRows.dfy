/**
 * The key-to-time maps of the alarm scheduler and the key-value rows they mirror.
 * Two maps share one synchronous store under two prefixes; the store may also hold
 * rows of the host and, under the prefixes, values that are not numbers.
 */
module AlarmRows {
  import opened Prelude

  type Key = string

  datatype Cell = Num(at: int) | Other

  type Rows = map<string, Cell>

  type Times = map<Key, int>

  const WAKE_PREFIX := "roj:wake:"
  const RETRY_PREFIX := "roj:retry:"

  ghost predicate HasTime(rows: Rows, prefix: string, key: Key) {
    prefix + key in rows && rows[prefix + key].Num?
  }

  /** The map holds exactly the numeric rows under the prefix. */
  ghost predicate Mirrors(times: Times, rows: Rows, prefix: string) {
    && (forall k :: k in times <==> HasTime(rows, prefix, k))
    && (forall k | k in times :: HasTime(rows, prefix, k) && rows[prefix + k].at == times[k])
  }

  ghost predicate Disjoint(p: string, q: string) {
    forall a: string, b: string :: p + a != q + b
  }

  lemma PrefixesDisjoint()
    ensures Disjoint(WAKE_PREFIX, RETRY_PREFIX)
    ensures Disjoint(RETRY_PREFIX, WAKE_PREFIX)
  {
    forall a: string, b: string ensures WAKE_PREFIX + a != RETRY_PREFIX + b {
      assert (WAKE_PREFIX + a)[4] != (RETRY_PREFIX + b)[4];
    }
  }

  lemma SuffixUnique(p: string, a: string, b: string)
    requires p + a == p + b
    ensures a == b
  {
    assert (p + a)[|p|..] == a;
    assert (p + b)[|p|..] == b;
  }

  /** A map is determined by the rows it mirrors. */
  lemma MirrorUnique(s: Times, t: Times, rows: Rows, prefix: string)
    requires Mirrors(s, rows, prefix) && Mirrors(t, rows, prefix)
    ensures s == t
  {
    forall k ensures k in s <==> k in t {
      assert k in s <==> HasTime(rows, prefix, k);
    }
    forall k | k in s ensures s[k] == t[k] {
      assert HasTime(rows, prefix, k);
    }
  }

  lemma SetMirrors(times: Times, rows: Rows, prefix: string, key: Key, at: int)
    requires Mirrors(times, rows, prefix)
    ensures Mirrors(times[key := at], rows[prefix + key := Num(at)], prefix)
  {
    var rows' := rows[prefix + key := Num(at)];
    forall k
      ensures k in times[key := at] <==> HasTime(rows', prefix, k)
      ensures k in times[key := at] ==> HasTime(rows', prefix, k) && rows'[prefix + k].at == times[key := at][k]
    {
      assert k in times <==> HasTime(rows, prefix, k);
      if prefix + k == prefix + key {
        SuffixUnique(prefix, k, key);
      }
    }
  }

  lemma DeleteMirrors(times: Times, rows: Rows, prefix: string, key: Key)
    requires Mirrors(times, rows, prefix)
    ensures Mirrors(times - {key}, rows - {prefix + key}, prefix)
  {
    var rows' := rows - {prefix + key};
    forall k
      ensures k in times - {key} <==> HasTime(rows', prefix, k)
      ensures k in times - {key} ==> HasTime(rows', prefix, k) && rows'[prefix + k].at == (times - {key})[k]
    {
      assert k in times <==> HasTime(rows, prefix, k);
      if prefix + k == prefix + key {
        SuffixUnique(prefix, k, key);
      }
    }
  }

  ghost predicate SameBut(rows: Rows, rows': Rows, changed: string) {
    && (forall row | row != changed :: row in rows <==> row in rows')
    && (forall row | row != changed && row in rows && row in rows' :: rows[row] == rows'[row])
  }

  /** Rows of one prefix are out of reach of writes under the other. */
  lemma OtherMirrors(times: Times, rows: Rows, rows': Rows, prefix: string, other: string, key: Key)
    requires Mirrors(times, rows, prefix) && Disjoint(prefix, other)
    requires SameBut(rows, rows', other + key)
    ensures Mirrors(times, rows', prefix)
  {
    forall k
      ensures k in times <==> HasTime(rows', prefix, k)
      ensures k in times ==> HasTime(rows', prefix, k) && rows'[prefix + k].at == times[k]
    {
      assert k in times <==> HasTime(rows, prefix, k);
      assert prefix + k != other + key;
    }
  }

  /** The synchronous store of a Durable Object and its single alarm slot. */
  class Storage {
    var rows: Rows
    var slot: Option<int>

    constructor (rows: Rows, slot: Option<int>)
      ensures this.rows == rows && this.slot == slot
    {
      this.rows := rows;
      this.slot := slot;
    }
  }

  /** The part of the mirror that a set of already listed rows accounts for. */
  ghost predicate MirrorsListed(times: Times, rows: Rows, prefix: string, listed: set<string>) {
    && (forall k :: k in times <==> HasTime(rows, prefix, k) && prefix + k in listed)
    && (forall k | k in times :: HasTime(rows, prefix, k) && rows[prefix + k].at == times[k])
  }

  class PersistedTimes {
    const storage: Storage
    const prefix: string
    var times: Times

    ghost predicate Valid()
      reads this, storage
    {
      Mirrors(times, storage.rows, prefix)
    }

    constructor (storage: Storage, prefix: string)
      ensures this.storage == storage && this.prefix == prefix
      ensures Valid()
    {
      this.storage := storage;
      this.prefix := prefix;
      this.times := map[];
      new;
      var todo := storage.rows.Keys;
      while todo != {}
        invariant todo <= storage.rows.Keys
        invariant MirrorsListed(times, storage.rows, prefix, storage.rows.Keys - todo)
        modifies this`times
        decreases |todo|
      {
        var row :| row in todo;
        if prefix <= row && storage.rows[row].Num? {
          ghost var before := times;
          var key := row[|prefix|..];
          assert prefix + key == row;
          times := times[key := storage.rows[row].at];
          forall k ensures k in times <==> HasTime(storage.rows, prefix, k) && prefix + k in storage.rows.Keys - (todo - {row}) {
            if prefix + k == prefix + key {
              SuffixUnique(prefix, k, key);
            }
            assert k in before <==> HasTime(storage.rows, prefix, k) && prefix + k in storage.rows.Keys - todo;
          }
        }
        todo := todo - {row};
      }
    }

    method Set(key: Key, at: int)
      modifies this`times, storage`rows
      ensures times == old(times)[key := at]
      ensures storage.rows == old(storage.rows)[prefix + key := Num(at)]
    {
      times := times[key := at];
      storage.rows := storage.rows[prefix + key := Num(at)];
    }

    /** A key that the map does not hold is taken to have no row, and the rows are left alone. */
    method Delete(key: Key) returns (held: bool)
      modifies this`times, storage`rows
      ensures held == (key in old(times))
      ensures times == if held then old(times) - {key} else old(times)
      ensures storage.rows == if held then old(storage.rows) - {prefix + key} else old(storage.rows)
    {
      if key !in times {
        return false;
      }
      times := times - {key};
      storage.rows := storage.rows - {prefix + key};
      return true;
    }

    method DueBy(cutoff: int) returns (due: seq<Key>)
      ensures NoDup(due)
      ensures forall k :: k in due <==> k in times && times[k] <= cutoff
    {
      due := [];
      var todo := times.Keys;
      while todo != {}
        invariant todo <= times.Keys
        invariant NoDup(due)
        invariant forall k :: k in due <==> k in times.Keys - todo && times[k] <= cutoff
        decreases |todo|
      {
        var key :| key in todo;
        if times[key] <= cutoff {
          due := due + [key];
        }
        todo := todo - {key};
      }
    }
  }
}
