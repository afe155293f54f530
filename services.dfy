/** The services grid: six service cards, each drawn with the gradient of
    its colour. The colour table has six entries; a colour the table does
    not hold is drawn with the blue gradient. */
module Services {

  datatype Service = Service(
    title: string,
    features: seq<string>,
    color: string)

  datatype Option<T> = None | Some(value: T)

  /** The six services, in display order. */
  function Catalogue(): (ss: seq<Service>)
    ensures |ss| == 6
  {
    [ Service("Web Development",
        ["Responsive Design", "SEO Optimized", "Fast Loading", "Cross-browser Compatible"], "blue"),
      Service("Mobile Apps",
        ["Native Performance", "Cross-platform", "App Store Ready", "Push Notifications"], "purple"),
      Service("UI/UX Design",
        ["User Research", "Wireframing", "Prototyping", "Design Systems"], "pink"),
      Service("Quality Assurance",
        ["Automated Testing", "Manual Testing", "Performance Testing", "Security Testing"], "green"),
      Service("Cloud Solutions",
        ["AWS/Azure/GCP", "DevOps", "Microservices", "Auto-scaling"], "indigo"),
      Service("Consulting",
        ["Tech Strategy", "Architecture Review", "Code Audit", "Team Training"], "yellow") ]
  }

  const BlueClasses := "from-blue-500 to-blue-600"

  /** The colour table: the gradient classes of each of its six colours,
      and None for any other name. */
  function ColorEntry(color: string): (entry: Option<string>)
    ensures entry.Some? <==> color in ColorNames()
    ensures entry.Some? ==> entry.value in Gradients()
  {
    match color
    case "blue" => Some("from-blue-500 to-blue-600")
    case "purple" => Some("from-purple-500 to-purple-600")
    case "pink" => Some("from-pink-500 to-pink-600")
    case "green" => Some("from-green-500 to-green-600")
    case "indigo" => Some("from-indigo-500 to-indigo-600")
    case "yellow" => Some("from-yellow-500 to-yellow-600")
    case _ => None
  }

  /** The six colour names of the table, in table order. */
  function ColorNames(): (names: seq<string>)
    ensures |names| == 6
  {
    ["blue", "purple", "pink", "green", "indigo", "yellow"]
  }

  /** The six gradients of the table, in table order. */
  function Gradients(): (gs: seq<string>)
    ensures |gs| == |ColorNames()|
  {
    [ "from-blue-500 to-blue-600", "from-purple-500 to-purple-600",
      "from-pink-500 to-pink-600", "from-green-500 to-green-600",
      "from-indigo-500 to-indigo-600", "from-yellow-500 to-yellow-600" ]
  }

  /** The gradient classes of a colour: its table entry when that entry is
      present and non-empty, and the blue entry otherwise. */
  function ColorClasses(color: string): (classes: string)
    ensures ColorEntry(color).Some? ==> classes == ColorEntry(color).value
    ensures ColorEntry(color).None? ==> classes == BlueClasses
  {
    match ColorEntry(color)
    case Some(g) => if g != "" then g else BlueClasses
    case None => BlueClasses
  }

  /** The table holds exactly the six names, the k-th name mapped to the
      k-th gradient. */
  lemma {:induction false} ColorTable(color: string)
    ensures ColorEntry(color).Some? <==> color in ColorNames()
    ensures forall k :: 0 <= k < 6 && color == ColorNames()[k] ==> ColorEntry(color) == Some(Gradients()[k])
  {
    var ns := ColorNames();
    assert ns[0] == "blue" && ns[1] == "purple" && ns[2] == "pink";
    assert ns[3] == "green" && ns[4] == "indigo" && ns[5] == "yellow";
  }

  /** A colour name the table does not hold is drawn blue. */
  lemma UnknownColorIsBlue(color: string)
    requires color !in ColorNames()
    ensures ColorClasses(color) == BlueClasses
  {
    ColorTable(color);
  }

  /** The lookup is total: whatever the colour name, the result is one of the
      six gradients of the table, and never empty. */
  lemma {:induction false} ColorClassesTotal(color: string)
    ensures ColorClasses(color) in Gradients()
    ensures ColorClasses(color) != ""
  {
    var gs := Gradients();
    assert gs[0] == BlueClasses;
    if ColorEntry(color).Some? {
      ColorTable(color);
      var k :| 0 <= k < 6 && color == ColorNames()[k];
      assert ColorClasses(color) == gs[k];
      assert gs[k][0] == 'f';
    } else {
      assert BlueClasses[0] == 'f';
    }
  }

  /** Every gradient of the table is the result of some colour: together
      with totality, the range of the lookup is exactly the six gradients. */
  lemma {:induction false} ColorClassesOnto(k: nat)
    requires k < 6
    ensures ColorClasses(ColorNames()[k]) == Gradients()[k]
  {
    ColorTable(ColorNames()[k]);
    assert Gradients()[k][0] == 'f';
  }

  lemma {:induction false} GradientsDistinct()
    ensures forall j, k :: 0 <= j < k < 6 ==> Gradients()[j] != Gradients()[k]
  {
    var gs := Gradients();
    assert gs[0][5] == 'b' && gs[1][5] == 'p' && gs[2][5] == 'p';
    assert gs[3][5] == 'g' && gs[4][5] == 'i' && gs[5][5] == 'y';
    assert gs[1][6] == 'u' && gs[2][6] == 'i';
  }

  /** Distinct colour names of the table give distinct gradients, so the
      range of the lookup has exactly six elements. */
  lemma {:induction false} ColorTableInjective(a: string, b: string)
    requires a in ColorNames() && b in ColorNames() && a != b
    ensures ColorClasses(a) != ColorClasses(b)
  {
    var ns := ColorNames();
    var j :| 0 <= j < 6 && ns[j] == a;
    var k :| 0 <= k < 6 && ns[k] == b;
    ColorClassesOnto(j);
    ColorClassesOnto(k);
    GradientsDistinct();
    assert j != k;
  }

  lemma {:induction false} SixGradients()
    ensures |set k | 0 <= k < 6 :: Gradients()[k]| == 6
  {
    GradientsDistinct();
    var gs := Gradients();
    assert (set k | 0 <= k < 6 :: gs[k]) == {gs[0], gs[1], gs[2], gs[3], gs[4], gs[5]};
  }

  /** The k-th service of the catalogue names the k-th colour of the table. */
  lemma {:induction false} CatalogueColorNames()
    ensures forall j :: 0 <= j < 6 ==> Catalogue()[j].color == ColorNames()[j]
  {
    var ss, ns := Catalogue(), ColorNames();
    assert ss[0].color == ns[0] && ss[1].color == ns[1] && ss[2].color == ns[2];
    assert ss[3].color == ns[3] && ss[4].color == ns[4] && ss[5].color == ns[5];
  }

  /** Every service in the catalogue names a colour of the table, so no
      card of the grid is drawn with the fallback. */
  lemma {:induction false} CatalogueColorsKnown()
    ensures forall j :: 0 <= j < 6 ==> ColorClasses(Catalogue()[j].color) == Gradients()[j]
  {
    forall j | 0 <= j < 6
      ensures ColorClasses(Catalogue()[j].color) == Gradients()[j]
    {
      CatalogueColorNames();
      ColorClassesOnto(j);
    }
  }

  /** The six cards carry six different gradients. */
  lemma CatalogueGradientsDistinct()
    ensures forall j, k :: 0 <= j < k < 6 ==>
      ColorClasses(Catalogue()[j].color) != ColorClasses(Catalogue()[k].color)
  {
    CatalogueColorsKnown();
    GradientsDistinct();
  }
}
