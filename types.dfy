/** The type-effectiveness tables of pokemon/type.go: scalar lookups, the bucketing of
    scalars into the four lists of a type chart, and the chart text. */
module Types {
  import opened Wrappers
  import Text

  /** One entry of a type's damage list: the defending type and the attack scalar. */
  datatype TypeDamage = TypeDamage(id: string, scalar: real)

  /** A type as loaded from the type table. */
  datatype Type = Type(id: string, name: string, damage: seq<TypeDamage>)

  /** A type as listed on a creature. */
  datatype PokemonType = PokemonType(id: string, name: string)

  type TypeList = seq<PokemonType>

  /** TypeMap, keyed by type ID. The program fills it from a file at start-up; here it is
      a parameter of every member that reads it. */
  type TypeTable = map<string, Type>

  /** `TypeMap[id].Name`: the zero Type, with an empty name, when the ID is unknown. */
  function NameOf(table: TypeTable, id: string): (r: string)
    ensures id !in table ==> r == ""
    ensures id in table ==> r == table[id].name
  {
    if id in table then table[id].name else ""
  }

  /** The names of a type list, in order. */
  function Names(ts: TypeList): (r: seq<string>)
    ensures |r| == |ts| && forall i :: 0 <= i < |ts| ==> r[i] == ts[i].name
  {
    seq(|ts|, i requires 0 <= i < |ts| => ts[i].name)
  }

  /** TypeList.Print: the names, in list order, separated by ", ". */
  method PrintTypeList(ts: TypeList) returns (r: string)
    ensures r == Text.Join(Names(ts), ", ")
  {
    var types: seq<string> := [];
    for i := 0 to |ts|
      invariant types == Names(ts[..i])
    {
      assert Names(ts[..i + 1]) == types + [ts[i].name];
      types := types + [ts[i].name];
    }
    assert ts[..|ts|] == ts;
    r := Text.Join(types, ", ");
  }

  /** An empty type list prints as the empty string, and a single type as its name. */
  lemma PrintTypeListShort(ts: TypeList)
    ensures |ts| == 0 ==> Text.Join(Names(ts), ", ") == ""
    ensures |ts| == 1 ==> Text.Join(Names(ts), ", ") == ts[0].name
  {
  }

  /** The attack scalars of a damage list, record by record: a later record for a target
      with the same name overwrites an earlier one. */
  function AttackScalarsOf(table: TypeTable, ds: seq<TypeDamage>): map<string, real>
  {
    if |ds| == 0 then map[]
    else AttackScalarsOf(table, ds[..|ds| - 1])[NameOf(table, ds[|ds| - 1].id) := ds[|ds| - 1].scalar]
  }

  /** GetAttackTypeScalars: the scalars of the type's damage list keyed by target name, or
      an empty map for an unknown ID. */
  method GetAttackTypeScalars(table: TypeTable, id: string) returns (r: map<string, real>)
    ensures id !in table ==> r == map[]
    ensures id in table ==> r == AttackScalarsOf(table, table[id].damage)
  {
    r := map[];
    if id in table {
      var ty := table[id];
      for i := 0 to |ty.damage|
        invariant r == AttackScalarsOf(table, ty.damage[..i])
      {
        assert ty.damage[..i + 1][..i] == ty.damage[..i];
        r := r[NameOf(table, ty.damage[i].id) := ty.damage[i].scalar];
      }
      assert ty.damage[..|ty.damage|] == ty.damage;
    }
  }

  /** The attack scalar map has one key per target name of the list, and holds for each
      name the scalar of the last record with that name. */
  lemma {:induction false} AttackScalarsContents(table: TypeTable, ds: seq<TypeDamage>)
    ensures forall n :: n in AttackScalarsOf(table, ds) <==> exists i :: 0 <= i < |ds| && NameOf(table, ds[i].id) == n
    ensures forall i :: 0 <= i < |ds| && (forall j :: i < j < |ds| ==> NameOf(table, ds[j].id) != NameOf(table, ds[i].id)) ==>
      AttackScalarsOf(table, ds)[NameOf(table, ds[i].id)] == ds[i].scalar
  {
    if |ds| > 0 {
      var init := ds[..|ds| - 1];
      AttackScalarsContents(table, init);
      forall n | n in AttackScalarsOf(table, ds)
        ensures exists i :: 0 <= i < |ds| && NameOf(table, ds[i].id) == n
      {
        if n != NameOf(table, ds[|ds| - 1].id) {
          assert n in AttackScalarsOf(table, init);
          var i :| 0 <= i < |init| && NameOf(table, init[i].id) == n;
          assert ds[i] == init[i];
        }
      }
      forall n | exists i :: 0 <= i < |ds| && NameOf(table, ds[i].id) == n
        ensures n in AttackScalarsOf(table, ds)
      {
        var i :| 0 <= i < |ds| && NameOf(table, ds[i].id) == n;
        if i < |init| {
          assert init[i] == ds[i];
        }
      }
      forall i | 0 <= i < |ds| && (forall j :: i < j < |ds| ==> NameOf(table, ds[j].id) != NameOf(table, ds[i].id))
        ensures AttackScalarsOf(table, ds)[NameOf(table, ds[i].id)] == ds[i].scalar
      {
        if i < |init| {
          assert init[i] == ds[i];
          assert forall j :: i < j < |init| ==> init[j] == ds[j];
        }
      }
    }
  }

  /** True when the damage list has a record for the given defending ID. */
  predicate Mentions(ds: seq<TypeDamage>, id: string)
  {
    exists i :: 0 <= i < |ds| && ds[i].id == id
  }

  /** True when `sc` is the scalar of some record for `id` in a type named `n`. */
  predicate DefenseEntry(table: TypeTable, id: string, n: string, sc: real)
  {
    exists k, i :: k in table && table[k].name == n && 0 <= i < |table[k].damage|
      && table[k].damage[i].id == id && table[k].damage[i].scalar == sc
  }

  /** A possible defense map of a known ID: every type whose damage list mentions the ID is
      in it by name, and each value is the scalar of such a record. */
  predicate DefenseScalars(table: TypeTable, id: string, m: map<string, real>)
  {
    (forall k :: k in table && Mentions(table[k].damage, id) ==> table[k].name in m)
    && (forall n :: n in m ==> DefenseEntry(table, id, n, m[n]))
  }

  /** The defense map a chart uses for an ID: the empty map (what a nil map ranges over)
      for an unknown ID, otherwise a possible defense map. */
  predicate DefenseUsed(table: TypeTable, id: string, m: map<string, real>)
  {
    if id in table then DefenseScalars(table, id, m) else m == map[]
  }

  /** GetDefenseTypeScalars: None (Go's nil map) for an unknown ID. Otherwise, for every
      type whose damage list mentions the ID, its name mapped to that scalar. The program
      ranges over TypeMap, whose order Go leaves unspecified. Within one type's list the
      last record for the ID wins; when two types share a name, which type's scalar
      survives depends on the map order, so the contract only says that each value is one
      of the candidates. */
  method GetDefenseTypeScalars(table: TypeTable, id: string) returns (r: Option<map<string, real>>)
    ensures r.None? <==> id !in table
    ensures r.Some? ==> DefenseScalars(table, id, r.value)
  {
    if id !in table {
      return None;
    }
    var scalars: map<string, real> := map[];
    var todo := table.Keys;
    while todo != {}
      invariant todo <= table.Keys
      invariant forall k :: k in table && k !in todo && Mentions(table[k].damage, id) ==> table[k].name in scalars
      invariant forall n :: n in scalars ==> DefenseEntry(table, id, n, scalars[n])
      decreases todo
    {
      var k :| k in todo;
      var ty := table[k];
      for i := 0 to |ty.damage|
        invariant forall j :: 0 <= j < i && ty.damage[j].id == id ==> ty.name in scalars
        invariant forall k' :: k' in table && k' !in todo && Mentions(table[k'].damage, id) ==> table[k'].name in scalars
        invariant forall n :: n in scalars ==> DefenseEntry(table, id, n, scalars[n])
      {
        if ty.damage[i].id == id {
          scalars := scalars[ty.name := ty.damage[i].scalar];
        }
      }
      todo := todo - {k};
    }
    r := Some(scalars);
  }

  /** Where a scalar is listed in a type chart. */
  datatype Effect = DoubleStrong | Strong | DoubleWeak | Weak | Neutral

  /** The bucketing of PrintTypeChart: above 1.9 doubly strong, from 1.4 strong, at most
      0.6 doubly weak, at most 0.8 weak, and anything strictly between 0.8 and 1.4 listed
      nowhere. */
  function Classify(sc: real): (e: Effect)
    ensures e == DoubleStrong <==> sc > 1.9
    ensures e == Strong <==> 1.4 <= sc <= 1.9
    ensures e == DoubleWeak <==> sc <= 0.6
    ensures e == Weak <==> 0.6 < sc <= 0.8
    ensures e == Neutral <==> 0.8 < sc < 1.4
  {
    if sc > 1.9 then DoubleStrong
    else if sc >= 1.4 then Strong
    else if sc <= 0.6 then DoubleWeak
    else if sc <= 0.8 then Weak
    else Neutral
  }

  /** The chart entry of a name: marked "(x2)" in the doubled buckets. */
  function Label(n: string, e: Effect): string
  {
    if e == DoubleStrong || e == DoubleWeak then n + "(x2)" else n
  }

  /** The two lists one scalar map contributes to a chart, when its keys are visited in
      the order `ks`: the strong list and the weak list. */
  function Split(m: map<string, real>, ks: seq<string>): (r: (seq<string>, seq<string>))
    requires forall i :: 0 <= i < |ks| ==> ks[i] in m
  {
    if |ks| == 0 then ([], [])
    else
      var (hi, lo) := Split(m, ks[..|ks| - 1]);
      var k := ks[|ks| - 1];
      match Classify(m[k])
      case DoubleStrong => (hi + [Label(k, DoubleStrong)], lo)
      case Strong => (hi + [Label(k, Strong)], lo)
      case DoubleWeak => (hi, lo + [Label(k, DoubleWeak)])
      case Weak => (hi, lo + [Label(k, Weak)])
      case Neutral => (hi, lo)
  }

  /** Each visited name is in the list its scalar selects, under its label, and nothing
      else is in either list; a neutral name is in neither. */
  lemma {:induction false} SplitContents(m: map<string, real>, ks: seq<string>)
    requires forall i :: 0 <= i < |ks| ==> ks[i] in m
    ensures forall i :: 0 <= i < |ks| && Classify(m[ks[i]]) in {DoubleStrong, Strong} ==>
      Label(ks[i], Classify(m[ks[i]])) in Split(m, ks).0
    ensures forall i :: 0 <= i < |ks| && Classify(m[ks[i]]) in {DoubleWeak, Weak} ==>
      Label(ks[i], Classify(m[ks[i]])) in Split(m, ks).1
    ensures forall e :: e in Split(m, ks).0 ==>
      (exists i :: 0 <= i < |ks| && Classify(m[ks[i]]) in {DoubleStrong, Strong} && e == Label(ks[i], Classify(m[ks[i]])))
    ensures forall e :: e in Split(m, ks).1 ==>
      (exists i :: 0 <= i < |ks| && Classify(m[ks[i]]) in {DoubleWeak, Weak} && e == Label(ks[i], Classify(m[ks[i]])))
    ensures |Split(m, ks).0| + |Split(m, ks).1| <= |ks|
  {
    if |ks| > 0 {
      var init := ks[..|ks| - 1];
      SplitContents(m, init);
      assert forall i :: 0 <= i < |init| ==> init[i] == ks[i];
      var (hi, lo) := Split(m, init);
      forall e | e in Split(m, ks).0
        ensures exists i :: 0 <= i < |ks| && Classify(m[ks[i]]) in {DoubleStrong, Strong} && e == Label(ks[i], Classify(m[ks[i]]))
      {
        if e !in hi {
          assert Classify(m[ks[|ks| - 1]]) in {DoubleStrong, Strong};
        }
      }
      forall e | e in Split(m, ks).1
        ensures exists i :: 0 <= i < |ks| && Classify(m[ks[i]]) in {DoubleWeak, Weak} && e == Label(ks[i], Classify(m[ks[i]]))
      {
        if e !in lo {
          assert Classify(m[ks[|ks| - 1]]) in {DoubleWeak, Weak};
        }
      }
    }
  }

  /** A visiting order of a map's keys, as ranging over a Go map produces: every key once. */
  predicate IsRangeOrder(m: map<string, real>, ks: seq<string>)
  {
    |ks| == |m.Keys|
    && (forall i :: 0 <= i < |ks| ==> ks[i] in m)
    && (forall k :: k in m ==> k in ks)
    && (forall i, j :: 0 <= i < j < |ks| ==> ks[i] != ks[j])
  }

  /** Ranging over a map: the keys, in some order the model does not fix. */
  method RangeKeys(m: map<string, real>) returns (ks: seq<string>)
    ensures IsRangeOrder(m, ks)
  {
    ks := [];
    var todo := m.Keys;
    while todo != {}
      invariant todo <= m.Keys
      invariant forall i :: 0 <= i < |ks| ==> ks[i] in m && ks[i] !in todo
      invariant forall k :: k in m ==> k in ks || k in todo
      invariant forall i, j :: 0 <= i < j < |ks| ==> ks[i] != ks[j]
      invariant |ks| + |todo| == |m.Keys|
      decreases todo
    {
      var k :| k in todo;
      ks := ks + [k];
      todo := todo - {k};
    }
  }

  /** One section of a chart: a heading and the joined list, or nothing for an empty list. */
  function Section(heading: string, xs: seq<string>): (r: string)
    ensures xs == [] <==> r == ""
  {
    if |xs| > 0 then heading + Text.Join(xs, ", ") + "\n" else ""
  }

  /** The text of a chart, for the given orders of the two maps' keys. */
  function ChartText(title: string, attack: map<string, real>, ka: seq<string>,
                     defense: map<string, real>, kd: seq<string>): string
    requires IsRangeOrder(attack, ka) && IsRangeOrder(defense, kd)
  {
    title + Section("Super Effective Against: ", Split(attack, ka).0)
    + Section("Not Very Effective Against: ", Split(attack, ka).1)
    + Section("Weak To: ", Split(defense, kd).0)
    + Section("Resistant To: ", Split(defense, kd).1)
  }

  /** A map contributes nothing to a chart exactly when every visited scalar is neutral. */
  lemma {:induction false} SplitEmpty(m: map<string, real>, ks: seq<string>)
    requires forall i :: 0 <= i < |ks| ==> ks[i] in m
    ensures Split(m, ks) == ([], []) <==> forall i :: 0 <= i < |ks| ==> Classify(m[ks[i]]) == Neutral
  {
    if |ks| > 0 {
      var init := ks[..|ks| - 1];
      SplitEmpty(m, init);
      assert forall i :: 0 <= i < |init| ==> init[i] == ks[i];
    }
  }

  /** The chart is its title line alone exactly when every scalar of both maps is
      neutral; a heading appears only over a non-empty list. */
  lemma ChartTextTitleOnly(title: string, attack: map<string, real>, ka: seq<string>,
                           defense: map<string, real>, kd: seq<string>)
    requires IsRangeOrder(attack, ka) && IsRangeOrder(defense, kd)
    ensures ChartText(title, attack, ka, defense, kd) == title <==>
      (forall k :: k in attack ==> Classify(attack[k]) == Neutral) &&
      (forall k :: k in defense ==> Classify(defense[k]) == Neutral)
  {
    SplitEmpty(attack, ka);
    SplitEmpty(defense, kd);
    var t := ChartText(title, attack, ka, defense, kd);
    assert |t| == |title| + |Section("Super Effective Against: ", Split(attack, ka).0)|
      + |Section("Not Very Effective Against: ", Split(attack, ka).1)|
      + |Section("Weak To: ", Split(defense, kd).0)|
      + |Section("Resistant To: ", Split(defense, kd).1)|;
    if t == title {
      forall k | k in attack ensures Classify(attack[k]) == Neutral {
        var i :| 0 <= i < |ka| && ka[i] == k;
      }
      forall k | k in defense ensures Classify(defense[k]) == Neutral {
        var i :| 0 <= i < |kd| && kd[i] == k;
      }
    }
  }

  /** The bucketing loop over one scalar map (the attack or the defense half of a chart). */
  method Bucket(m: map<string, real>) returns (ks: seq<string>, hi: seq<string>, lo: seq<string>)
    ensures IsRangeOrder(m, ks)
    ensures (hi, lo) == Split(m, ks)
  {
    ks := RangeKeys(m);
    hi, lo := [], [];
    for i := 0 to |ks|
      invariant (hi, lo) == Split(m, ks[..i])
    {
      assert ks[..i + 1][..i] == ks[..i];
      var sc := m[ks[i]];
      if sc > 1.9 {
        hi := hi + [ks[i] + "(x2)"];
      } else if sc >= 1.4 {
        hi := hi + [ks[i]];
      } else if sc <= 0.6 {
        lo := lo + [ks[i] + "(x2)"];
      } else if sc <= 0.8 {
        lo := lo + [ks[i]];
      }
    }
    assert ks[..|ks|] == ks;
  }

  /** The message of a chart: the title, then a heading and the joined list for each
      non-empty list. */
  method AppendSections(title: string, superEffective: seq<string>, notEffective: seq<string>,
                        weakness: seq<string>, resistance: seq<string>) returns (msg: string)
    ensures msg == title + Section("Super Effective Against: ", superEffective)
      + Section("Not Very Effective Against: ", notEffective) + Section("Weak To: ", weakness)
      + Section("Resistant To: ", resistance)
  {
    msg := title;
    if |superEffective| > 0 {
      msg := msg + ("Super Effective Against: " + Text.Join(superEffective, ", ") + "\n");
    }
    assert msg == title + Section("Super Effective Against: ", superEffective);
    if |notEffective| > 0 {
      msg := msg + ("Not Very Effective Against: " + Text.Join(notEffective, ", ") + "\n");
    }
    assert msg == title + Section("Super Effective Against: ", superEffective)
      + Section("Not Very Effective Against: ", notEffective);
    if |weakness| > 0 {
      msg := msg + ("Weak To: " + Text.Join(weakness, ", ") + "\n");
    }
    assert msg == title + Section("Super Effective Against: ", superEffective)
      + Section("Not Very Effective Against: ", notEffective) + Section("Weak To: ", weakness);
    if |resistance| > 0 {
      msg := msg + ("Resistant To: " + Text.Join(resistance, ", ") + "\n");
    }
  }

  /** The chart text of a title and two scalar maps, the shared tail of both
      PrintTypeChart methods; the key orders are those Go happens to choose. */
  method PrintChart(title: string, attack: map<string, real>, defense: map<string, real>) returns (msg: string)
    ensures exists ka, kd ::
      IsRangeOrder(attack, ka) && IsRangeOrder(defense, kd) && msg == ChartText(title, attack, ka, defense, kd)
  {
    var ka, superEffective, notEffective := Bucket(attack);
    var kd, weakness, resistance := Bucket(defense);
    msg := AppendSections(title, superEffective, notEffective, weakness, resistance);
    assert IsRangeOrder(attack, ka) && IsRangeOrder(defense, kd) && msg == ChartText(title, attack, ka, defense, kd);
  }

  /** Type.PrintTypeChart: the chart of one type, from its attack and defense scalars
      (a nil defense map ranges over nothing). */
  method PrintTypeChart(table: TypeTable, t: Type) returns (msg: string)
    ensures exists ka, kd, attack, defense ::
      (if t.id in table then attack == AttackScalarsOf(table, table[t.id].damage) else attack == map[])
      && DefenseUsed(table, t.id, defense)
      && IsRangeOrder(attack, ka) && IsRangeOrder(defense, kd)
      && msg == ChartText("Type Effects for **" + t.name + "**:\n", attack, ka, defense, kd)
  {
    var attack := GetAttackTypeScalars(table, t.id);
    var d := GetDefenseTypeScalars(table, t.id);
    var defense := if d.Some? then d.value else map[];
    msg := PrintChart("Type Effects for **" + t.name + "**:\n", attack, defense);
  }
}
