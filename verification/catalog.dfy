/** The fixed product list the finder searches, in its declared order. */
module ProductCatalog {
  import opened Domain

  const Catalog: seq<Product> := [
    Product("PL-T1000-WGL", "Sondes de pièce communicantes Boite blanche, étiquette grise", 500.00),
    Product("VC2000-W", "Régulateur VAV compact, BACnet", 350.50),
    Product("EC-W-PIR", "Contrôleur d’ambiance avec capteur PIR", 275.00),
    Product("PS-500", "Sonde de pression différentielle pour conduits", 120.75),
    Product("TR-24", "Transformateur 24VCA, 40VA", 45.00),
    Product("MC200", "Module de communication", 150.00),
    Product("RTU-400-B", "Unité de toit programmable, BACnet", 1250.00),
    Product("AHU-CTRL-1", "Contrôleur d’unité de traitement d’air", 980.25),
    Product("TEMP-OUT-1", "Sonde de température extérieure", 85.50),
    Product("HUM-DUCT-1", "Sonde d'humidité pour conduits", 130.00),
    Product("PL-485-BT", "Prolon USB or BLUETOOTH TO RS485 CONVERTER", 674.16),
    Product("PL-C1050-RTU", "BASIC ZONING SYSTEM ROOFTOP CONTROLLER", 778.02),
    Product("PL-C5510-MOD", "MODULATING AND FLOATING CONTROLLER", 450.50),
    Product("PL-C1000-M", "MASTER NETWORK CONTROLLER", 890.00),
    Product("PL-VC2000-S", "STAGED VAV CONTROLLER", 375.00),
    Product("PL-TSTAT-PRO", "Programmable Commercial Thermostat", 215.75),
    Product("PL-AIR-Q", "Sonde de qualité de l'air intérieur (CO2, VOC)", 320.00),
    Product("PL-FLOW-MTR", "Débitmètre à insertion pour eau", 550.00),
    Product("PL-GATE-BAC", "Passerelle BACnet vers Modbus", 1100.00),
    Product("PL-EXP-8I", "Module d'extension 8 entrées universelles", 295.40),
    Product("PL-EXP-8O", "Module d'extension 8 sorties analogiques", 310.00),
    Product("PL-PSU-24D", "Alimentation 24VDC, 75W", 110.20),
    Product("PL-VAL-ACT-1", "Actionneur de vanne, 0-10V, 5Nm", 180.00),
    Product("PL-DMP-ACT-2", "Actionneur de volet, 24V, 10Nm", 205.80),
    Product("PL-WTHR-STN", "Station météo compacte (Temp, Hum, Lux)", 650.00),
    Product("PL-T2000-B", "Sonde de pièce communicante Boite Noire", 515.00),
    Product("PL-CO2-WALL", "Sonde de CO2 murale avec afficheur", 240.00)
  ]

  /**
   * `p` is an entry of `s`, found by scanning from the front. `InCatalog` uses it instead of
   * `p in Catalog` because the verifier unfolds a recursive predicate only on demand, while
   * `in` on the 27-entry literal expands it wherever it appears, which makes every proof that
   * mentions the catalog much more expensive. `ListedIff` shows the two agree.
   */
  predicate Listed(p: Product, s: seq<Product>)
    decreases |s|
  {
    s != [] && (s[0] == p || Listed(p, s[1..]))
  }

  /** The scan finds exactly the entries of the list. */
  lemma {:induction false} ListedIff(p: Product, s: seq<Product>)
    ensures Listed(p, s) <==> p in s
    decreases |s|
  {
    if s != [] {
      ListedIff(p, s[1..]);
      assert s == [s[0]] + s[1..];
    }
  }

  /** `p` is one of the catalog's products. */
  predicate InCatalog(p: Product)
  {
    Listed(p, Catalog)
  }
}
