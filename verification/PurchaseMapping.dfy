/**
 The suppliers a purchase export carries (internal/saftao/mappurchase.go), and the reference check it then has to pass
 (internal/saftao/export.go). Suppliers are told apart by their trimmed identifier, but looked up by the raw one.
 */
module PurchaseMapping {
  import opened Prelude
  import opened Text

  datatype Supplier = Supplier(id: string, content: nat)

  datatype Collected = Collected(suppliers: seq<Supplier>, seen: set<string>)

  function Configured(config: seq<Supplier>): Collected {
    if config == [] then Collected([], {})
    else
      var before, last := Configured(config[..|config| - 1]), config[|config| - 1];
      var id := TrimSpace(last.id);
      if id == "" || id in before.seen then before
      else Collected(before.suppliers + [last], before.seen + {id})
  }

  /** A placeholder for each supplier that is used and not yet seen. */
  function WithUsed(from: Collected, used: seq<string>, unknown: string -> Supplier): Collected {
    if used == [] then from
    else
      var before, id := WithUsed(from, used[..|used| - 1], unknown), used[|used| - 1];
      if id == "" || id in before.seen then before
      else Collected(before.suppliers + [unknown(id)], before.seen + {id})
  }

  /** The two loops that collect suppliers, over the configuration and over the supplier ids of mapped invoices. */
  method CollectSuppliers(config: seq<Supplier>, used: seq<string>, unknown: string -> Supplier)
    returns (suppliers: seq<Supplier>)
    ensures suppliers == WithUsed(Configured(config), used, unknown).suppliers
  {
    suppliers := [];
    var supSeen: set<string> := {};
    for i := 0 to |config|
      invariant Configured(config[..i]) == Collected(suppliers, supSeen)
    {
      hide TrimSpace;
      assert config[..i + 1][..i] == config[..i];
      var id := TrimSpace(config[i].id);
      if id != "" {
        if id !in supSeen {
          supSeen := supSeen + {id};
          suppliers := suppliers + [config[i]];
        }
      }
    }
    assert config[..|config|] == config;
    ghost var from := Configured(config);
    for i := 0 to |used|
      invariant WithUsed(from, used[..i], unknown) == Collected(suppliers, supSeen)
    {
      assert used[..i + 1][..i] == used[..i];
      if used[i] != "" && used[i] !in supSeen {
        supSeen := supSeen + {used[i]};
        suppliers := suppliers + [unknown(used[i])];
      }
    }
    assert used[..|used|] == used;
  }

  /** validatePurchaseSupplierRefs: no blank identifier, and every invoice's supplier among them, compared untrimmed. */
  predicate RefsPass(invoices: seq<string>, suppliers: seq<Supplier>) {
    && (forall s :: s in suppliers ==> !Blank(s.id))
    && (forall id :: id in invoices ==> exists s :: s in suppliers && s.id == id)
  }

  method ValidateSupplierRefs(invoices: seq<string>, suppliers: seq<Supplier>) returns (ok: bool)
    ensures ok == RefsPass(invoices, suppliers)
  {
    var sup: set<string> := {};
    for i := 0 to |suppliers|
      invariant forall k :: 0 <= k < i ==> !Blank(suppliers[k].id)
      invariant forall id: string :: id in sup <==> exists k :: 0 <= k < i && suppliers[k].id == id
    {
      if Blank(suppliers[i].id) {
        assert suppliers[i] in suppliers;
        return false;
      }
      sup := sup + {suppliers[i].id};
    }
    for i := 0 to |invoices|
      invariant forall k :: 0 <= k < i ==> invoices[k] in sup
    {
      if invoices[i] !in sup {
        assert invoices[i] in invoices;
        return false;
      }
    }
    ok := true;
  }

  /** The first configured supplier whose trimmed identifier this is. */
  function FirstWith(config: seq<Supplier>, id: string): Option<Supplier> {
    if config == [] then None
    else if FirstWith(config[..|config| - 1], id).Some? then FirstWith(config[..|config| - 1], id)
    else if TrimSpace(config[|config| - 1].id) == id then Some(config[|config| - 1])
    else None
  }

  lemma {:induction false} ConfiguredAre(config: seq<Supplier>)
    ensures forall id: string :: id in Configured(config).seen <==> id != "" && FirstWith(config, id).Some?
    ensures forall s :: s in Configured(config).suppliers <==>
                        !Blank(s.id) && FirstWith(config, TrimSpace(s.id)) == Some(s)
  {
    hide TrimSpace;
    if config != [] {
      ConfiguredAre(config[..|config| - 1]);
    }
  }

  lemma {:induction false} FirstTrims(config: seq<Supplier>, id: string)
    ensures FirstWith(config, id).Some? ==> TrimSpace(FirstWith(config, id).value.id) == id
  {
    if config != [] {
      FirstTrims(config[..|config| - 1], id);
    }
  }

  lemma {:induction false} UsedAre(from: Collected, used: seq<string>, unknown: string -> Supplier)
    requires forall id :: unknown(id).id == id
    ensures forall s :: s in WithUsed(from, used, unknown).suppliers <==>
                        s in from.suppliers || (s.id in used && s.id != "" && s.id !in from.seen && s == unknown(s.id))
    ensures forall id :: id in WithUsed(from, used, unknown).seen <==> id in from.seen || (id in used && id != "")
  {
    if used != [] {
      var front, last := used[..|used| - 1], used[|used| - 1];
      UsedAre(from, front, unknown);
      assert used == front + [last];
    }
  }

  /** The suppliers at these places: of each identifier that is not blank the first to have it, in their order. */
  ghost predicate FirstsAt(config: seq<Supplier>, kept: seq<Supplier>, ks: seq<nat>) {
    && |ks| == |kept| && (forall i, j :: 0 <= i < j < |ks| ==> ks[i] < ks[j])
    && (forall i :: 0 <= i < |ks| ==> ks[i] < |config| && kept[i] == config[ks[i]])
    && (forall k :: 0 <= k < |config| ==> (k in ks <==> FirstAt(config, k)))
  }

  predicate FirstAt(config: seq<Supplier>, k: nat)
    requires k < |config|
  {
    !Blank(config[k].id) && forall m :: 0 <= m < k ==> TrimSpace(config[m].id) != TrimSpace(config[k].id)
  }

  lemma {:induction false} ConfiguredInOrder(config: seq<Supplier>) returns (ks: seq<nat>)
    ensures FirstsAt(config, Configured(config).suppliers, ks)
    ensures forall id :: id in Configured(config).seen <==>
                         id != "" && exists m :: 0 <= m < |config| && TrimSpace(config[m].id) == id
  {
    hide TrimSpace;
    if config == [] {
      ks := [];
    } else {
      var front, last := config[..|config| - 1], config[|config| - 1];
      ks := ConfiguredInOrder(front);
      assert forall k :: 0 <= k < |front| ==> front[k] == config[k];
      assert forall k :: 0 <= k < |front| ==> FirstAt(front, k) == FirstAt(config, k);
      if FirstAt(config, |front|) {
        ks := ks + [|front|];
      }
    }
  }

  /** The placeholders: one for each identifier used that is neither blank nor seen, in the order of first use. */
  ghost predicate NewAt(seen: set<string>, used: seq<string>, ids: seq<string>, ks: seq<nat>) {
    && |ks| == |ids| && (forall i, j :: 0 <= i < j < |ks| ==> ks[i] < ks[j])
    && (forall i :: 0 <= i < |ks| ==> ks[i] < |used| && ids[i] == used[ks[i]])
    && (forall k :: 0 <= k < |used| ==> (k in ks <==> used[k] != "" && used[k] !in seen && used[k] !in used[..k]))
  }

  lemma NewNext(seen: set<string>, front: seq<string>, last: string, ids: seq<string>, ks: seq<nat>)
    requires NewAt(seen, front, ids, ks)
    ensures var more := last != "" && last !in seen && last !in front;
            NewAt(seen, front + [last], if more then ids + [last] else ids, if more then ks + [|front|] else ks)
  {
    var used := front + [last];
    assert used[..|front|] == front;
    forall k | 0 <= k < |front|
      ensures used[k] == front[k] && used[..k] == front[..k]
    {
    }
  }

  lemma UsedNext(from: Collected, front: seq<string>, last: string, unknown: string -> Supplier)
    ensures var before, after := WithUsed(from, front, unknown), WithUsed(from, front + [last], unknown);
            if last == "" || last in before.seen then after == before
            else after.suppliers == before.suppliers + [unknown(last)] && after.seen == before.seen + {last}
  {
    assert (front + [last])[..|front|] == front;
  }

  function Placeholders(ids: seq<string>, unknown: string -> Supplier): seq<Supplier> {
    seq(|ids|, i requires 0 <= i < |ids| => unknown(ids[i]))
  }

  /** What is used and not seen, in the order of first use. */
  function NewIds(seen: set<string>, used: seq<string>): seq<string> {
    if used == [] then []
    else
      var front, last := NewIds(seen, used[..|used| - 1]), used[|used| - 1];
      if last != "" && last !in seen && last !in used[..|used| - 1] then front + [last] else front
  }

  lemma {:induction false} NewInOrder(seen: set<string>, used: seq<string>) returns (ks: seq<nat>)
    ensures NewAt(seen, used, NewIds(seen, used), ks)
  {
    if used == [] {
      ks := [];
    } else {
      var front, last := used[..|used| - 1], used[|used| - 1];
      assert used == front + [last];
      ks := NewInOrder(seen, front);
      NewNext(seen, front, last, NewIds(seen, front), ks);
      hide NewAt;
      if last != "" && last !in seen && last !in front {
        ks := ks + [|front|];
      }
    }
  }

  lemma {:induction false} UsedSeen(from: Collected, used: seq<string>, unknown: string -> Supplier)
    ensures forall id :: id in WithUsed(from, used, unknown).seen <==> id in from.seen || (id in used && id != "")
  {
    if used != [] {
      var front, last := used[..|used| - 1], used[|used| - 1];
      UsedSeen(from, front, unknown);
      assert used == front + [last];
    }
  }

  /** The second loop adds their placeholders behind the configured suppliers. */
  lemma {:induction false} UsedInOrder(from: Collected, used: seq<string>, unknown: string -> Supplier)
    ensures WithUsed(from, used, unknown).suppliers ==
            from.suppliers + Placeholders(NewIds(from.seen, used), unknown)
  {
    if used != [] {
      var front, last := used[..|used| - 1], used[|used| - 1];
      assert used == front + [last];
      UsedInOrder(from, front, unknown);
      UsedSeen(from, front, unknown);
      UsedNext(from, front, last, unknown);
      hide WithUsed;
      var ids := NewIds(from.seen, front);
      assert Placeholders(ids + [last], unknown) == Placeholders(ids, unknown) + [unknown(last)];
    }
  }

  /**
   The check passes exactly when, for every supplier an invoice names, the first configured supplier that trims to that
   identifier - if there is one - is written without blanks around it.
   */
  lemma SupplierCheckPassesExactlyWhen(config: seq<Supplier>, used: seq<string>, invoices: seq<string>,
                                       unknown: string -> Supplier)
    requires forall id :: unknown(id).id == id
    requires forall id :: id in used ==> id != "" && TrimSpace(id) == id
    requires forall id :: id in invoices ==> id in used
    ensures RefsPass(invoices, WithUsed(Configured(config), used, unknown).suppliers) <==>
            forall id :: id in invoices && FirstWith(config, id).Some? ==> FirstWith(config, id).value.id == id
  {
    hide TrimSpace;
    var from := Configured(config);
    var all := WithUsed(from, used, unknown);
    ConfiguredAre(config);
    UsedAre(from, used, unknown);
    hide Configured, WithUsed, FirstWith;
    forall id | id in invoices
      ensures (exists s :: s in all.suppliers && s.id == id) <==>
              (FirstWith(config, id).Some? ==> FirstWith(config, id).value.id == id)
    {
      FirstTrims(config, id);
      if FirstWith(config, id).Some? {
        var s := FirstWith(config, id).value;
        if s.id == id {
          assert s in all.suppliers;
        }
      } else {
        assert unknown(id) in all.suppliers;
      }
    }
  }

  /** A supplier configured as " S1" and used as "S1": the placeholder is not added, and the reference is not found. */
  lemma PaddedSupplierFails(unknown: string -> Supplier)
    requires forall id :: unknown(id).id == id
    ensures !RefsPass(["S1"], WithUsed(Configured([Supplier(" S1", 0)]), ["S1"], unknown).suppliers)
  {
    var config := [Supplier(" S1", 0)];
    TrimmedStays("S1");
    assert (" S1")[1..] == "S1";
    assert TrimLeft(" S1") == TrimLeft("S1") == "S1";
    assert TrimSpace(" S1") == TrimSpace("S1");
    assert config[..0] == [];
    assert FirstWith([], "S1") == None;
    assert FirstWith(config, "S1") == Some(config[0]);
    assert |" S1"| != |"S1"|;
    SupplierCheckPassesExactlyWhen(config, ["S1"], ["S1"], unknown);
    assert "S1" in ["S1"];
  }
}
