/** `KnownApplication`: the applications the satellite can restart, each
    with its key, its restart command and its git checkout command. */
module KnownApplications {
  import opened Outcomes

  datatype KnownApplication = DvdStore | HeatClinic | Cmr

  /** The enum's constants in declaration order, as `values()` lists them. */
  const Values: seq<KnownApplication> := [DvdStore, HeatClinic, Cmr]

  /** The key the satellite looks an application up by: a non-empty word
      without blanks. */
  function Key(app: KnownApplication): (r: string)
    ensures r != "" && ' ' !in r
  {
    match app
    case DvdStore => "dvdstore"
    case HeatClinic => "heat-clinic"
    case Cmr => "cmr"
  }

  /** Every application has a restart command. */
  function RestartCommand(app: KnownApplication): (r: string)
    ensures r != "" && r != "UNDEFINED"
  {
    match app
    case DvdStore => "sudo service dvdstore restart"
    case HeatClinic => "restartHeatClinic.sh"
    case Cmr => "sudo service cmr restart"
  }

  /** Only the Heat Clinic has a checkout script; the others have the
      `UNDEFINED` placeholder. */
  function GitCheckoutCommand(app: KnownApplication): (r: string)
    ensures r == "UNDEFINED" <==> app != HeatClinic
  {
    match app
    case DvdStore => "UNDEFINED"
    case HeatClinic => "checkoutGitVersion.sh"
    case Cmr => "UNDEFINED"
  }

  /** The map the static initializer fills: each of `apps` under its key,
      a later one replacing an earlier one with the same key. */
  function KeyTable(apps: seq<KnownApplication>): (m: map<string, KnownApplication>)
    ensures forall a :: a in apps ==> Key(a) in m
    ensures forall k :: k in m ==> m[k] in apps && Key(m[k]) == k
  {
    if |apps| == 0 then map[]
    else
      var init := KeyTable(apps[..|apps| - 1]);
      var last := apps[|apps| - 1];
      assert forall a :: a in apps ==> a in apps[..|apps| - 1] || a == last;
      init[Key(last) := last]
  }

  /** `forKey`: the application with that key, or null. */
  function ForKey(key: string): (r: Option<KnownApplication>)
    ensures r.Some? ==> Key(r.value) == key
  {
    var table := KeyTable(Values);
    if key in table then Some(table[key]) else None
  }

  /** The three keys differ from one another. */
  lemma KeysDistinct(a: KnownApplication, b: KnownApplication)
    ensures Key(a) == Key(b) ==> a == b
  {
    if a != b {
      assert Key(a)[0] != Key(b)[0] || |Key(a)| != |Key(b)|;
    }
  }

  /** Every application is found by its own key, and nothing else is
      found: a key of no application yields null. */
  lemma ForKeyFindsEach(key: string)
    ensures forall a: KnownApplication :: ForKey(Key(a)) == Some(a)
    ensures (forall a: KnownApplication :: Key(a) != key) ==> ForKey(key) == None
  {
    forall a: KnownApplication ensures ForKey(Key(a)) == Some(a) {
      assert a == Values[0] || a == Values[1] || a == Values[2];
      var table := KeyTable(Values);
      KeysDistinct(a, table[Key(a)]);
    }
  }

  /** `heat-clinic` is the only application with a checkout script; the
      other two have the `UNDEFINED` placeholder. */
  lemma HeatClinicEntry()
    ensures ForKey("heat-clinic") == Some(HeatClinic)
    ensures RestartCommand(HeatClinic) == "restartHeatClinic.sh" && GitCheckoutCommand(HeatClinic) == "checkoutGitVersion.sh"
    ensures forall a: KnownApplication :: a != HeatClinic ==> GitCheckoutCommand(a) == "UNDEFINED"
  {
    ForKeyFindsEach("heat-clinic");
    assert Key(HeatClinic) == "heat-clinic";
  }
}
