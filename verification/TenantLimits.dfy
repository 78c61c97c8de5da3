/** Model quotas of a tenant: an edit appends a zero for every persisted model it no longer shows. */
module TenantLimits {
  import opened Text

  datatype Limit = Limit(model: string, tokensPerMin: nat)

  /** The trimmed, non-empty model names of a list. */
  function Models(list: seq<Limit>): set<string>
  {
    set l | l in list && Trim(l.model) != "" :: Trim(l.model)
  }

  /** The zero rows for the models of `persisted` that are in neither `current` nor `seen`, in order. */
  function Tombstones(persisted: seq<Limit>, current: set<string>, seen: set<string>): seq<Limit>
  {
    if persisted == [] then []
    else
      var model := Trim(persisted[0].model);
      if model == "" || model in current || model in seen then Tombstones(persisted[1..], current, seen)
      else [Limit(model, 0)] + Tombstones(persisted[1..], current, seen + {model})
  }

  method ReconcileTenantModelLimits(current: seq<Limit>, persisted: seq<Limit>) returns (r: seq<Limit>)
    ensures r == current + Tombstones(persisted, Models(current), {})
  {
    hide Trim;
    var currentModels := Models(current);
    var seen: set<string>, tombstones: seq<Limit> := {}, [];
    for i := 0 to |persisted|
      invariant Tombstones(persisted, currentModels, {}) == tombstones + Tombstones(persisted[i..], currentModels, seen)
    {
      var model := Trim(persisted[i].model);
      assert persisted[i..][1..] == persisted[i + 1..];
      if model == "" || model in currentModels || model in seen { continue; }
      seen := seen + {model};
      tombstones := tombstones + [Limit(model, 0)];
      assert persisted[i + 1..] == persisted[i..][1..];
    }
    r := current + tombstones;
  }

  //-------------------------------------------------------
  // The gateway's upsert
  //-------------------------------------------------------

  type Quotas = map<string, nat>

  /** A zero deletes the model's quota, a positive row sets it, an absent model is kept. */
  function Upsert(stored: Quotas, rows: seq<Limit>): Quotas
    decreases |rows|
  {
    if rows == [] then stored
    else
      var before, row := Upsert(stored, rows[..|rows| - 1]), rows[|rows| - 1];
      if row.tokensPerMin == 0 then before - {row.model} else before[row.model := row.tokensPerMin]
  }

  /** Trimmed, non-empty model names. */
  predicate Clean(list: seq<Limit>)
  {
    forall l | l in list :: l.model != "" && Trimmed(l.model)
  }

  ghost predicate Distinct(list: seq<Limit>)
  {
    forall i, j | 0 <= i < j < |list| :: list[i].model != list[j].model
  }

  predicate Names(list: seq<Limit>, model: string) { exists i :: 0 <= i < |list| && list[i].model == model }

  lemma {:induction false} UpsertOther(stored: Quotas, rows: seq<Limit>, model: string)
    requires !Names(rows, model)
    ensures model in Upsert(stored, rows) <==> model in stored
    ensures model in stored ==> Upsert(stored, rows)[model] == stored[model]
    decreases |rows|
  {
    if rows != [] {
      var n := |rows| - 1;
      assert rows[n].model != model;
      assert !Names(rows[..n], model) by {
        assert forall i | 0 <= i < n :: rows[..n][i].model == rows[i].model;
      }
      UpsertOther(stored, rows[..n], model);
    }
  }

  /** The last row that names a model decides it. */
  lemma {:induction false} UpsertRow(stored: Quotas, rows: seq<Limit>, i: nat)
    requires i < |rows| && forall j | i < j < |rows| :: rows[j].model != rows[i].model
    ensures rows[i].model in Upsert(stored, rows) <==> rows[i].tokensPerMin > 0
    ensures rows[i].tokensPerMin > 0 ==> Upsert(stored, rows)[rows[i].model] == rows[i].tokensPerMin
    decreases |rows|
  {
    var n := |rows| - 1;
    if i < n {
      assert rows[n].model != rows[i].model;
      UpsertRow(stored, rows[..n], i);
    }
  }

  lemma {:induction false} TombstoneOf(persisted: seq<Limit>, current: set<string>, seen: set<string>, k: nat)
    requires k < |persisted| && Trim(persisted[k].model) != ""
    requires Trim(persisted[k].model) !in current && Trim(persisted[k].model) !in seen
    ensures Limit(Trim(persisted[k].model), 0) in Tombstones(persisted, current, seen)
    decreases |persisted|
  {
    hide Trim;
    var first := Trim(persisted[0].model);
    if k > 0 {
      assert persisted[1..][k - 1] == persisted[k];
      if first == "" || first in current || first in seen {
        TombstoneOf(persisted[1..], current, seen, k - 1);
      } else if first != Trim(persisted[k].model) {
        TombstoneOf(persisted[1..], current, seen + {first}, k - 1);
      }
    }
  }

  lemma {:induction false} TombstoneOutside(persisted: seq<Limit>, current: set<string>, seen: set<string>, t: Limit)
    requires t in Tombstones(persisted, current, seen)
    ensures t.tokensPerMin == 0 && t.model !in current && t.model !in seen
    decreases |persisted|
  {
    hide Trim;
    var first := Trim(persisted[0].model);
    if first == "" || first in current || first in seen {
      TombstoneOutside(persisted[1..], current, seen, t);
    } else if t != Limit(first, 0) {
      TombstoneOutside(persisted[1..], current, seen + {first}, t);
    }
  }

  lemma {:induction false} TombstonesDistinct(persisted: seq<Limit>, current: set<string>, seen: set<string>)
    ensures Distinct(Tombstones(persisted, current, seen))
    decreases |persisted|
  {
    hide Trim, Distinct;
    if persisted == [] {
      DistinctEmpty();
    } else {
      var first := Trim(persisted[0].model);
      if first == "" || first in current || first in seen {
        TombstonesDistinct(persisted[1..], current, seen);
      } else {
        var rest := Tombstones(persisted[1..], current, seen + {first});
        TombstonesDistinct(persisted[1..], current, seen + {first});
        forall i | 0 <= i < |rest|
          ensures rest[i].model != first
        {
          TombstoneOutside(persisted[1..], current, seen + {first}, rest[i]);
        }
        DistinctCons(Limit(first, 0), rest);
      }
    }
  }

  lemma DistinctEmpty()
    ensures Distinct([])
  {
  }

  lemma DistinctCons(l: Limit, rest: seq<Limit>)
    requires Distinct(rest) && forall i | 0 <= i < |rest| :: rest[i].model != l.model
    ensures Distinct([l] + rest)
  {
  }

  /** `persisted` lists every stored quota. */
  ghost predicate Lists(persisted: seq<Limit>, stored: Quotas)
  {
    forall model | model in stored :: exists k :: 0 <= k < |persisted| && persisted[k].model == model
  }

  lemma ModelOfRow(current: seq<Limit>, i: nat)
    requires Clean(current) && i < |current|
    ensures current[i].model in Models(current)
  {
    assert current[i] in current;
  }

  lemma ModelsAreNames(current: seq<Limit>, model: string)
    requires Clean(current)
    ensures model in Models(current) <==> Names(current, model)
  {
    if model in Models(current) {
      var l :| l in current && Trim(l.model) != "" && Trim(l.model) == model;
      var i :| 0 <= i < |current| && current[i] == l;
      assert current[i].model == model;
    }
    if Names(current, model) {
      var i :| 0 <= i < |current| && current[i].model == model;
      ModelOfRow(current, i);
    }
  }

  lemma CleanRow(list: seq<Limit>, k: nat)
    requires Clean(list) && k < |list|
    ensures Trim(list[k].model) == list[k].model != ""
  {
    assert list[k] in list;
  }

  /** A stored model the form no longer shows has its zero row. */
  lemma Unlisted(stored: Quotas, current: seq<Limit>, persisted: seq<Limit>, model: string)
    requires Clean(current) && Clean(persisted) && Lists(persisted, stored) && model in stored && !Names(current, model)
    ensures Names(Tombstones(persisted, Models(current), {}), model)
  {
    hide Models, Tombstones, Trim, Clean;
    ModelsAreNames(current, model);
    var k :| 0 <= k < |persisted| && persisted[k].model == model;
    CleanRow(persisted, k);
    TombstoneOf(persisted, Models(current), {}, k);
    NamedMember(Tombstones(persisted, Models(current), {}), Limit(model, 0));
  }

  lemma NamedMember(list: seq<Limit>, l: Limit)
    requires l in list
    ensures Names(list, l.model)
  {
    var i :| 0 <= i < |list| && list[i] == l;
    assert list[i].model == l.model;
  }

  /** Rows of a form: clean and distinct, followed by the zero rows of other models. */
  ghost predicate Appended(rows: seq<Limit>, current: seq<Limit>, tombstones: seq<Limit>)
  {
    && rows == current + tombstones && Distinct(current) && Distinct(tombstones)
    && forall j | 0 <= j < |tombstones| :: tombstones[j].tokensPerMin == 0 && !Names(current, tombstones[j].model)
  }

  lemma RowsAppended(current: seq<Limit>, persisted: seq<Limit>)
    requires Clean(current) && Distinct(current)
    ensures var t := Tombstones(persisted, Models(current), {}); Appended(current + t, current, t)
  {
    hide Models, Tombstones, Clean, Names, Distinct;
    var t := Tombstones(persisted, Models(current), {});
    TombstonesDistinct(persisted, Models(current), {});
    forall j | 0 <= j < |t|
      ensures t[j].tokensPerMin == 0 && !Names(current, t[j].model)
    {
      TombstoneOutside(persisted, Models(current), {}, t[j]);
      ModelsAreNames(current, t[j].model);
    }
  }

  lemma CurrentRow(stored: Quotas, rows: seq<Limit>, current: seq<Limit>, tombstones: seq<Limit>, i: nat)
    requires Appended(rows, current, tombstones) && i < |current|
    ensures var after := Upsert(stored, rows);
            && (current[i].model in after <==> current[i].tokensPerMin > 0)
            && (current[i].tokensPerMin > 0 ==> after[current[i].model] == current[i].tokensPerMin)
  {
    hide Upsert;
    assert rows[i] == current[i];
    forall j | i < j < |rows|
      ensures rows[j].model != rows[i].model
    {
      if j >= |current| {
        assert rows[j] == tombstones[j - |current|];
        assert !Names(current, tombstones[j - |current|].model);
      } else {
        assert rows[j] == current[j];
      }
    }
    UpsertRow(stored, rows, i);
  }

  lemma ZeroRow(stored: Quotas, rows: seq<Limit>, current: seq<Limit>, tombstones: seq<Limit>, i: nat)
    requires Appended(rows, current, tombstones) && i < |tombstones|
    ensures tombstones[i].model !in Upsert(stored, rows)
  {
    hide Upsert, Names;
    var k := |current| + i;
    assert rows[k] == tombstones[i];
    forall j | k < j < |rows|
      ensures rows[j].model != rows[k].model
    {
      assert rows[j] == tombstones[j - |current|];
    }
    UpsertRow(stored, rows, k);
  }

  lemma NotInRows(a: seq<Limit>, b: seq<Limit>, model: string)
    requires !Names(a, model) && !Names(b, model)
    ensures !Names(a + b, model)
  {
  }

  /** After the upsert of the reconciled rows, the tenant has exactly the current rows with a non-zero
      limit: each of them with its limit, and no other model. */
  lemma UpsertLeavesCurrent(stored: Quotas, current: seq<Limit>, persisted: seq<Limit>)
    requires Clean(current) && Distinct(current) && Clean(persisted) && Lists(persisted, stored)
    ensures var after := Upsert(stored, current + Tombstones(persisted, Models(current), {}));
            && (forall i | 0 <= i < |current| ::
                  && (current[i].model in after <==> current[i].tokensPerMin > 0)
                  && (current[i].tokensPerMin > 0 ==> after[current[i].model] == current[i].tokensPerMin))
            && (forall model | model in after :: Names(current, model))
  {
    hide *;
    var tombstones := Tombstones(persisted, Models(current), {});
    var rows := current + tombstones;
    RowsAppended(current, persisted);
    forall i | 0 <= i < |current|
      ensures current[i].model in Upsert(stored, rows) <==> current[i].tokensPerMin > 0
      ensures current[i].tokensPerMin > 0 ==> Upsert(stored, rows)[current[i].model] == current[i].tokensPerMin
    {
      CurrentRow(stored, rows, current, tombstones, i);
    }
    forall model | model in Upsert(stored, rows)
      ensures Names(current, model)
    {
      OnlyCurrent(stored, current, persisted, model);
    }
  }

  lemma OnlyCurrent(stored: Quotas, current: seq<Limit>, persisted: seq<Limit>, model: string)
    requires Clean(current) && Distinct(current) && Clean(persisted) && Lists(persisted, stored)
    requires model in Upsert(stored, current + Tombstones(persisted, Models(current), {}))
    ensures Names(current, model)
  {
    hide Clean, Distinct, Lists, Upsert, Models, Tombstones, Names, Appended;
    var tombstones := Tombstones(persisted, Models(current), {});
    var rows := current + tombstones;
    RowsAppended(current, persisted);
    if Names(tombstones, model) {
      NamedRow(stored, rows, current, tombstones, model);
    } else if !Names(current, model) {
      NotInRows(current, tombstones, model);
      UpsertOther(stored, rows, model);
      Unlisted(stored, current, persisted, model);
    }
  }

  lemma NamedRow(stored: Quotas, rows: seq<Limit>, current: seq<Limit>, tombstones: seq<Limit>, model: string)
    requires Appended(rows, current, tombstones) && Names(tombstones, model)
    ensures model !in Upsert(stored, rows)
  {
    hide Upsert, Appended;
    var i :| 0 <= i < |tombstones| && tombstones[i].model == model;
    ZeroRow(stored, rows, current, tombstones, i);
  }
}
