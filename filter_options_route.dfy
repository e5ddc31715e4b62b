/**
 * The filter-options route: the distinct locations and health states of the store,
 * each sorted, and the largest power level.
 */
module FilterOptionsRoute {
  import opened Wrappers
  import opened Strings
  import opened Seqs
  import opened Types
  import opened Store

  /** The reply body. `maxPower` is `None` for an empty store, where `Math.max()` of no
      values is `-Infinity`. */
  datatype OptionsBody = OptionsBody(locations: seq<string>, healthStates: seq<string>, maxPower: Option<int>)

  function LocationsOf(characters: seq<Character>): (r: seq<string>)
    ensures |r| == |characters|
    ensures forall i :: 0 <= i < |r| ==> r[i] == characters[i].location
  {
    seq(|characters|, i requires 0 <= i < |characters| => characters[i].location)
  }

  function HealthTextsOf(characters: seq<Character>): (r: seq<string>)
    ensures |r| == |characters|
    ensures forall i :: 0 <= i < |r| ==> r[i] == HealthText(characters[i].health)
  {
    seq(|characters|, i requires 0 <= i < |characters| => HealthText(characters[i].health))
  }

  /** `Math.max(...powers)`: at least every power level and equal to one of them. */
  function MaxPower(characters: seq<Character>): (r: Option<int>)
    ensures r.None? <==> characters == []
    ensures r.Some? ==> forall c :: c in characters ==> c.power <= r.value
    ensures r.Some? ==> exists c :: c in characters && c.power == r.value
  {
    if characters == [] then None
    else
      var head := characters[0];
      assert characters == [head] + characters[1..];
      match MaxPower(characters[1..])
      case None => Some(head.power)
      case Some(m) => Some(if head.power > m then head.power else m)
  }

  /** The body `GET` answers with once the records are loaded. */
  function Options(characters: seq<Character>): OptionsBody
  {
    OptionsBody(LocationOptions(characters), HealthOptions(characters), MaxPower(characters))
  }

  /** `Array.from(new Set(characters.map(char => char.location))).sort()` */
  function LocationOptions(characters: seq<Character>): seq<string>
  {
    SortedUnique(LocationsOf(characters))
  }

  /** `Array.from(new Set(characters.map(char => char.health))).sort()` */
  function HealthOptions(characters: seq<Character>): seq<string>
  {
    SortedUnique(HealthTextsOf(characters))
  }

  /** Each list holds exactly the values some record has, once each, in ascending
      code-point order. */
  lemma OptionsContents(characters: seq<Character>)
    ensures var o := Options(characters);
      && StrictlyAscending(o.locations) && StrictlyAscending(o.healthStates)
      && (forall x :: x in o.locations <==> exists c :: c in characters && c.location == x)
      && (forall x :: x in o.healthStates <==> exists c :: c in characters && HealthText(c.health) == x)
  {
    LocationContents(characters);
    HealthContents(characters);
  }

  lemma LocationContents(characters: seq<Character>)
    ensures forall x :: x in LocationOptions(characters) <==> exists c :: c in characters && c.location == x
  {
    forall x ensures x in LocationOptions(characters) <==> exists c :: c in characters && c.location == x {
      if x in LocationsOf(characters) {
        var i :| 0 <= i < |characters| && LocationsOf(characters)[i] == x;
        assert characters[i] in characters;
      }
      if c :| c in characters && c.location == x {
        var i :| 0 <= i < |characters| && characters[i] == c;
        assert LocationsOf(characters)[i] == x;
      }
    }
  }

  lemma HealthContents(characters: seq<Character>)
    ensures forall x :: x in HealthOptions(characters) <==> exists c :: c in characters && HealthText(c.health) == x
  {
    forall x ensures x in HealthOptions(characters) <==> exists c :: c in characters && HealthText(c.health) == x {
      if x in HealthTextsOf(characters) {
        var i :| 0 <= i < |characters| && HealthTextsOf(characters)[i] == x;
        assert characters[i] in characters;
      }
      if c :| c in characters && HealthText(c.health) == x {
        var i :| 0 <= i < |characters| && characters[i] == c;
        assert HealthTextsOf(characters)[i] == x;
      }
    }
  }

  /** The options depend only on which records the store holds, not on their order or
      repetition. */
  lemma OptionsIgnoreOrder(a: seq<Character>, b: seq<Character>)
    requires forall c :: c in a <==> c in b
    ensures Options(a) == Options(b)
  {
    ListsIgnoreOrder(a, b);
    MaxIgnoreOrder(a, b);
  }

  lemma ListsIgnoreOrder(a: seq<Character>, b: seq<Character>)
    requires forall c :: c in a <==> c in b
    ensures Options(a).locations == Options(b).locations
    ensures Options(a).healthStates == Options(b).healthStates
  {
    OptionsContents(a);
    OptionsContents(b);
    var oa, ob := Options(a), Options(b);
    forall x ensures x in oa.locations <==> x in ob.locations {
      if x in oa.locations {
        var c :| c in a && c.location == x;
        assert c in b;
      }
      if x in ob.locations {
        var c :| c in b && c.location == x;
        assert c in a;
      }
    }
    forall x ensures x in oa.healthStates <==> x in ob.healthStates {
      if x in oa.healthStates {
        var c :| c in a && HealthText(c.health) == x;
        assert c in b;
      }
      if x in ob.healthStates {
        var c :| c in b && HealthText(c.health) == x;
        assert c in a;
      }
    }
    StrictlyAscendingUnique(oa.locations, ob.locations);
    StrictlyAscendingUnique(oa.healthStates, ob.healthStates);
  }

  lemma MaxIgnoreOrder(a: seq<Character>, b: seq<Character>)
    requires forall c :: c in a <==> c in b
    ensures MaxPower(a) == MaxPower(b)
  {
    assert a == [] <==> b == [] by {
      if a != [] {
        assert a[0] in b;
      }
      if b != [] {
        assert b[0] in a;
      }
    }
    if a != [] {
      MaxBelow(a, b);
      MaxBelow(b, a);
    }
  }

  /** The maximum of a non-empty list is at most that of a list holding all its records. */
  lemma MaxBelow(a: seq<Character>, b: seq<Character>)
    requires a != [] && b != []
    requires forall c :: c in a ==> c in b
    ensures MaxPower(a).value <= MaxPower(b).value
  {
    var m := MaxPower(a);
    assert m.Some?;
    var ca :| ca in a && ca.power == m.value;
    assert ca in b;
  }

  /** With all three health states present the list is the code-point order of their
      names. */
  lemma AllHealthStates(characters: seq<Character>)
    requires exists c :: c in characters && c.health == Critical
    requires exists c :: c in characters && c.health == Healthy
    requires exists c :: c in characters && c.health == Injured
    ensures Options(characters).healthStates == HealthNames
  {
    HealthMembers(characters);
    HealthNamesAscending();
    StrictlyAscendingUnique(HealthOptions(characters), HealthNames);
  }

  const HealthNames: seq<string> := ["Critical", "Healthy", "Injured"]

  lemma HealthNamesAscending()
    ensures StrictlyAscending(HealthNames)
  {
    assert StrLt(HealthNames[0], HealthNames[1]) && StrLt(HealthNames[1], HealthNames[2]);
    StrLtTransitive(HealthNames[0], HealthNames[1], HealthNames[2]);
  }

  lemma HealthMembers(characters: seq<Character>)
    requires exists c :: c in characters && c.health == Critical
    requires exists c :: c in characters && c.health == Healthy
    requires exists c :: c in characters && c.health == Injured
    ensures forall x :: x in HealthOptions(characters) <==> x in HealthNames
  {
    HealthContents(characters);
    var got := HealthOptions(characters);
    var c1 :| c1 in characters && c1.health == Critical;
    var c2 :| c2 in characters && c2.health == Healthy;
    var c3 :| c3 in characters && c3.health == Injured;
    assert HealthText(c1.health) in got && HealthText(c2.health) in got && HealthText(c3.health) in got;
    forall x | x in got ensures x in HealthNames {
      var c :| c in characters && HealthText(c.health) == x;
      HealthTextIn(c.health);
    }
  }

  lemma HealthTextIn(h: Health)
    ensures HealthText(h) in HealthNames
  {
    match h
    case Critical => assert HealthNames[0] == "Critical";
    case Healthy => assert HealthNames[1] == "Healthy";
    case Injured => assert HealthNames[2] == "Injured";
  }

  const OptionsFailure := "Failed to fetch filter options"

  /** `GET /api/characters/filter-options`: load through the memo, then collect the
      options; a failed load becomes status 500. */
  method Get(store: CharacterStore, read: ReadOutcome) returns (resp: Response<OptionsBody>)
    modifies store
    ensures resp.Error500? <==> old(store.cache).None? && read.ReadFailed?
    ensures resp.Error500? ==> resp.error == OptionsFailure && store.cache == None
    ensures resp.Ok200? ==> store.cache.Some? && resp.body == Options(store.cache.value)
    ensures old(store.cache).Some? ==> store.cache == old(store.cache)
    ensures old(store.cache).None? && read.Parsed? ==> store.cache == Some(read.records)
  {
    var loaded := store.Load(read);
    match loaded
    case Ok(characters) =>
      resp := Ok200(Options(characters));
    case Err(_) =>
      resp := Error500(OptionsFailure);
  }
}
