/** Location identity and the composite (location, material) key that every
    join of the engine uses. */
module Keys {

  /** The centre whose hub warehouse is a location of its own. */
  const HubCentre := "TCNO"
  /** The warehouse code of that hub. */
  const HubStore := "HUB"
  /** The location identity of the hub. */
  const HubLocation := "TCNO-HUB"

  /** The location of a stock or ledger row: the centre, except that the hub
      warehouse of the hub centre is its own location. Total: unknown codes
      pass through. */
  function LocationId(centro: string, almacen: string): (id: string)
    ensures centro == HubCentre && almacen == HubStore ==> id == HubLocation
    ensures !(centro == HubCentre && almacen == HubStore) ==> id == centro
  {
    if centro == HubCentre && almacen == HubStore then HubLocation else centro
  }

  /** The key of a (location, material) pair: the location followed by the
      material code as text. */
  function CompositeKey(location: string, material: string): (k: string)
    ensures |k| == |location| + |material|
    ensures k[..|location|] == location && k[|location|..] == material
  {
    location + material
  }

  /** The warehouse matters only for the hub centre: for every other centre
      two rows of the same centre get the same location. */
  lemma LocationIgnoresStoreOutsideHub(centro: string, a1: string, a2: string)
    requires centro != HubCentre
    ensures LocationId(centro, a1) == LocationId(centro, a2) == centro
  {
  }

  /** The hub centre is split into exactly two locations, and the hub location
      differs from the bare centre. */
  lemma HubCentreSplits(almacen: string)
    ensures LocationId(HubCentre, almacen) == (if almacen == HubStore then HubLocation else HubCentre)
    ensures HubLocation != HubCentre
  {
    assert |HubLocation| != |HubCentre|;
  }

  /** For one location the key determines the material. */
  lemma {:induction false} KeyDeterminesMaterial(location: string, m1: string, m2: string)
    requires CompositeKey(location, m1) == CompositeKey(location, m2)
    ensures m1 == m2
  {
    calc {
      m1;
      CompositeKey(location, m1)[|location|..];
      CompositeKey(location, m2)[|location|..];
      m2;
    }
  }

  /** Keys of locations of equal length identify the pair. */
  lemma {:induction false} KeyDeterminesPair(l1: string, m1: string, l2: string, m2: string)
    requires |l1| == |l2| && CompositeKey(l1, m1) == CompositeKey(l2, m2)
    ensures l1 == l2 && m1 == m2
  {
    calc {
      l1;
      CompositeKey(l1, m1)[..|l1|];
      CompositeKey(l2, m2)[..|l2|];
      l2;
    }
    KeyDeterminesMaterial(l1, m1, m2);
  }

  /** Without a separator, different pairs can share a key: the hub location
      with material "1" and the hub centre with material "-HUB1". */
  lemma KeyIsAmbiguousAcrossLocations()
    ensures CompositeKey(HubLocation, "1") == CompositeKey(HubCentre, "-HUB1")
    ensures HubLocation != HubCentre
  {
    assert HubLocation + "1" == HubCentre + "-HUB1";
  }
}
