/** The registration service's database.
    Source: packages/register/src/db.ts. Times are in seconds. */
module RegisterDb {
  import opened Basics

  datatype Row = Row(
    ed25519PublicKey: string,
    x25519PublicKey: string,
    displayName: Option<string>,
    custodial: bool,
    createdAt: int,
    updatedAt: int)

  /** The registrations table; token_id is its primary key. */
  type Registrations = map<string, Row>

  /** The daily_counts table, by UTC day. */
  type DailyCounts = map<int, nat>

  const DAY_SECONDS := 86400

  /** isoDay: days are as good as their names. */
  function Day(now: int): int {
    now / DAY_SECONDS
  }

  function CountOn(counts: DailyCounts, day: int): nat {
    if day in counts then counts[day] else 0
  }

  function NamedSince(rows: Registrations, name: string, since: int): set<string> {
    set id | id in rows && rows[id].displayName == Some(name) && rows[id].createdAt >= since
  }

  /** The fields updateAfterMutation can be given. */
  datatype Mutation = Mutation(signingKey: Option<string>, encryptionKey: Option<string>, custodial: Option<bool>)

  /** A JavaScript value that is present and not the empty string. */
  predicate Carried(key: Option<string>) {
    key.Some? && key.value != ""
  }

  function Mutated(row: Row, m: Mutation, now: int): Row {
    row.(ed25519PublicKey := if Carried(m.signingKey) then m.signingKey.value else row.ed25519PublicKey,
         x25519PublicKey := if Carried(m.encryptionKey) then m.encryptionKey.value else row.x25519PublicKey,
         custodial := m.custodial.UnwrapOr(row.custodial),
         updatedAt := now)
  }

  function AfterMutation(rows: Registrations, tokenId: string, m: Mutation, now: int): Registrations {
    if tokenId in rows then rows[tokenId := Mutated(rows[tokenId], m, now)] else rows
  }

  class RegisterDb {
    var registrations: Registrations
    var dailyCounts: DailyCounts

    constructor ()
      ensures registrations == map[] && dailyCounts == map[]
    {
      registrations, dailyCounts := map[], map[];
    }

    /** false stands for the primary key violation, which throws. */
    method InsertRegistration(tokenId: string, ed25519PublicKey: string, x25519PublicKey: string,
                              displayName: Option<string>, createdAt: int, now: int)
      returns (ok: bool)
      modifies this`registrations
      ensures ok == (tokenId !in old(registrations))
      ensures registrations
              == if ok
                 then old(registrations)[tokenId :=
                        Row(ed25519PublicKey, x25519PublicKey, displayName, true, createdAt, now)]
                 else old(registrations)
    {
      if tokenId in registrations {
        return false;
      }
      registrations := registrations[tokenId :=
        Row(ed25519PublicKey, x25519PublicKey, displayName, true, createdAt, now)];
      return true;
    }

    method FindByTokenId(tokenId: string) returns (row: Option<Row>)
      ensures row == if tokenId in registrations then Some(registrations[tokenId]) else None
    {
      if tokenId in registrations {
        return Some(registrations[tokenId]);
      }
      return None;
    }

    /** Goes over the table row by row, in any order. */
    method CountByDisplayNameToday(displayName: string, now: int) returns (count: nat)
      ensures count == |NamedSince(registrations, displayName, now - DAY_SECONDS)|
    {
      var since, rest := now - DAY_SECONDS, registrations.Keys;
      ghost var counted: set<string> := {};
      count := 0;
      while rest != {}
        invariant rest <= registrations.Keys && counted !! rest && |counted| == count
        invariant NamedSince(registrations, displayName, since) <= counted + rest
        invariant counted <= NamedSince(registrations, displayName, since)
        decreases rest
      {
        var id :| id in rest;
        rest := rest - {id};
        if registrations[id].displayName == Some(displayName) && registrations[id].createdAt >= since {
          counted, count := counted + {id}, count + 1;
        }
      }
      assert counted == NamedSince(registrations, displayName, since);
    }

    method CountToday(now: int) returns (count: nat)
      ensures count == CountOn(dailyCounts, Day(now))
    {
      return CountOn(dailyCounts, Day(now));
    }

    method IncrementToday(now: int)
      modifies this`dailyCounts
      ensures dailyCounts == old(dailyCounts)[Day(now) := CountOn(old(dailyCounts), Day(now)) + 1]
    {
      var day := Day(now);
      if day in dailyCounts {
        dailyCounts := dailyCounts[day := dailyCounts[day] + 1];
      } else {
        dailyCounts := dailyCounts[day := 1];
      }
    }

    method UpdateAfterMutation(tokenId: string, m: Mutation, now: int)
      modifies this`registrations
      ensures registrations == AfterMutation(old(registrations), tokenId, m, now)
    {
      if tokenId in registrations {
        var row := registrations[tokenId].(updatedAt := now);
        if Carried(m.signingKey) {
          row := row.(ed25519PublicKey := m.signingKey.value);
        }
        if Carried(m.encryptionKey) {
          row := row.(x25519PublicKey := m.encryptionKey.value);
        }
        if m.custodial.Some? {
          row := row.(custodial := m.custodial.value);
        }
        registrations := registrations[tokenId := row];
      }
    }
  }
}
