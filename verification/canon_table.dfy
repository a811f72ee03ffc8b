/** `CANON_MAP` is a well-formed alias table: every entry lists its own
    canonical name first, and no two entries accept names with the same
    key.  Consequently `standardize_columns` is idempotent on every table. */
module CanonTable {
  import opened Tables
  import opened Schema

  // ---------------------------------------------------------------------
  // Keys of names spelled word by word
  // ---------------------------------------------------------------------

  predicate AllKeyChars(w: string) {
    forall k :: 0 <= k < |w| ==> IsKeyChar(w[k])
  }

  lemma NormWord(w: string)
    requires AllKeyChars(w)
    ensures Norm(w) == w
  {
    NormFixpoint(w);
  }

  lemma NormUnderscore()
    ensures Norm("_") == []
  {
    assert "_"[..0] == [];
  }

  /** Appending a word adds the word to the key. */
  lemma NormJoin(x: string, w: string)
    requires AllKeyChars(w)
    ensures Norm(x + w) == Norm(x) + w
  {
    NormAppend(x, w);
    NormWord(w);
  }

  /** Appending `"_"` and a word adds the word to the key. */
  lemma NormSnake(x: string, w: string)
    requires AllKeyChars(w)
    ensures Norm(x + "_" + w) == Norm(x) + w
  {
    NormAppend(x, "_");
    NormUnderscore();
    NormJoin(x + "_", w);
  }

  /** A trailing underscore does not change the key. */
  lemma NormTrailing(w: string)
    requires AllKeyChars(w)
    ensures Norm(w + "_") == w
  {
    NormAppend(w, "_");
    NormUnderscore();
    NormWord(w);
  }

  lemma NormWords2(w1: string, w2: string)
    requires AllKeyChars(w1) && AllKeyChars(w2)
    ensures Norm(w1 + "_" + w2) == w1 + w2
  {
    NormWord(w1);
    NormSnake(w1, w2);
  }

  lemma NormWords3(w1: string, w2: string, w3: string)
    requires AllKeyChars(w1) && AllKeyChars(w2) && AllKeyChars(w3)
    ensures Norm(w1 + "_" + w2 + "_" + w3) == w1 + w2 + w3
  {
    NormWords2(w1, w2);
    NormSnake(w1 + "_" + w2, w3);
  }

  lemma NormWords4(w1: string, w2: string, w3: string, w4: string)
    requires AllKeyChars(w1) && AllKeyChars(w2) && AllKeyChars(w3) && AllKeyChars(w4)
    ensures Norm(w1 + "_" + w2 + "_" + w3 + "_" + w4) == w1 + w2 + w3 + w4
  {
    NormWords3(w1, w2, w3);
    NormSnake(w1 + "_" + w2 + "_" + w3, w4);
  }

  lemma NormJoin2(w1: string, w2: string)
    requires AllKeyChars(w1) && AllKeyChars(w2)
    ensures Norm(w1 + w2) == w1 + w2
  {
    NormWord(w1);
    NormJoin(w1, w2);
  }

  lemma NormJoin3(w1: string, w2: string, w3: string)
    requires AllKeyChars(w1) && AllKeyChars(w2) && AllKeyChars(w3)
    ensures Norm(w1 + w2 + w3) == w1 + w2 + w3
  {
    NormJoin2(w1, w2);
    NormJoin(w1 + w2, w3);
  }

  lemma NormJoin4(w1: string, w2: string, w3: string, w4: string)
    requires AllKeyChars(w1) && AllKeyChars(w2) && AllKeyChars(w3) && AllKeyChars(w4)
    ensures Norm(w1 + w2 + w3 + w4) == w1 + w2 + w3 + w4
  {
    NormJoin3(w1, w2, w3);
    NormJoin(w1 + w2 + w3, w4);
  }

  lemma NormWordsJoin(w1: string, w2: string, w3: string, w4: string)
    requires AllKeyChars(w1) && AllKeyChars(w2) && AllKeyChars(w3) && AllKeyChars(w4)
    ensures Norm(w1 + "_" + w2 + "_" + w3 + w4) == w1 + w2 + w3 + w4
  {
    NormWords3(w1, w2, w3);
    NormJoin(w1 + "_" + w2 + "_" + w3, w4);
  }

  // ---------------------------------------------------------------------
  // Which entry owns a key
  // ---------------------------------------------------------------------

  /** The entry of `CANON_MAP` owning a key, told apart by the key's length
      and at most one of its letters; 18 (no entry) for any other key. */
  function KeyOwner(n: string): nat {
    if |n| == 4 then 5
    else if |n| == 5 then 3
    else if |n| == 6 then (if n[0] == 'F' then 0 else 4)
    else if |n| == 7 then (if n[0] == 'A' then 14 else 11)
    else if |n| == 8 then (if n[0] == 'D' then 17 else 15)
    else if |n| == 9 then (if n[0] == 'C' then 16 else if n[0] == 'D' then 7 else if n[0] == 'F' then 3 else if n[0] == 'O' then 1 else 12)
    else if |n| == 10 then (if n[3] == 'A' then 13 else if n[3] == 'C' then 2 else if n[3] == 'D' then 10 else 0)
    else if |n| == 11 then (if n[4] == 'A' then 5 else if n[4] == 'C' then 9 else 6)
    else if |n| == 12 then (if n[0] == 'D' then 7 else 3)
    else if |n| == 13 then (if n[6] == 'A' then 4 else 8)
    else if |n| == 14 then (if n[1] == 'P' then 3 else 6)
    else if |n| == 15 then (if n[0] == 'D' then 9 else 1)
    else if |n| == 16 then (if n[0] == 'M' then 2 else if n[0] == 'O' then 1 else 2)
    else if |n| == 17 then 8
    else if |n| == 21 then 7
    else if |n| == 23 then (if n[0] == 'M' then 2 else 6)
    else if |n| == 24 then (if n[0] == 'I' then 2 else 1)
    else if |n| == 28 then 3
    else 18
  }

  /** Entry `i` lists its canonical name first, and every name it accepts
      has a key owned by `i`. */
  ghost predicate EntryOwned(e: CanonEntry, i: nat) {
    |e.aliases| > 0 && e.aliases[0] == e.canon
    && forall a :: a in e.aliases ==> KeyOwner(Norm(a)) == i
  }

  lemma KeyOfFlDate()
    ensures KeyOwner(Norm("FL" + "_" + "DATE")) == 0
  {
    NormWords2("FL", "DATE");
  }

  lemma KeyOfFlightDate()
    ensures KeyOwner(Norm("FLIGHT" + "_" + "DATE")) == 0
  {
    NormWords2("FLIGHT", "DATE");
  }

  lemma KeyOfFlightdate()
    ensures KeyOwner(Norm("FLIGHT" + "DATE")) == 0
  {
    NormJoin2("FLIGHT", "DATE");
  }

  lemma OwnedBy0()
    ensures EntryOwned(CanonMap[0], 0)
  {
    KeyOfFlDate(); KeyOfFlightDate(); KeyOfFlightdate();
  }

  lemma KeyOfOpUniqueCarrier()
    ensures KeyOwner(Norm("OP" + "_" + "UNIQUE" + "_" + "CARRIER")) == 1
  {
    NormWords3("OP", "UNIQUE", "CARRIER");
  }

  lemma KeyOfOperatingAirline()
    ensures KeyOwner(Norm("OPERATING" + "_" + "AIRLINE")) == 1
  {
    NormWords2("OPERATING", "AIRLINE");
  }

  lemma KeyOfOperatingcarrier()
    ensures KeyOwner(Norm("OPERATING" + "CARRIER")) == 1
  {
    NormJoin2("OPERATING", "CARRIER");
  }

  lemma KeyOfOpCarrier()
    ensures KeyOwner(Norm("OP" + "_" + "CARRIER")) == 1
  {
    NormWords2("OP", "CARRIER");
  }

  lemma KeyOfOperatingAirlineIataCode()
    ensures KeyOwner(Norm("OPERATING" + "_" + "AIRLINE" + "_" + "IATA" + "_" + "CODE")) == 1
  {
    NormWords4("OPERATING", "AIRLINE", "IATA", "CODE");
  }

  lemma KeyOfOperatingairlineiatacode()
    ensures KeyOwner(Norm("OPERATING" + "AIRLINE" + "IATA" + "CODE")) == 1
  {
    NormJoin4("OPERATING", "AIRLINE", "IATA", "CODE");
  }

  lemma OwnedBy1()
    ensures EntryOwned(CanonMap[1], 1)
  {
    KeyOfOpUniqueCarrier(); KeyOfOperatingAirline(); KeyOfOperatingcarrier(); KeyOfOpCarrier(); KeyOfOperatingAirlineIataCode(); KeyOfOperatingairlineiatacode();
  }

  lemma KeyOfMktUniqueCarrier()
    ensures KeyOwner(Norm("MKT" + "_" + "UNIQUE" + "_" + "CARRIER")) == 2
  {
    NormWords3("MKT", "UNIQUE", "CARRIER");
  }

  lemma KeyOfMarketingAirlineNetwork()
    ensures KeyOwner(Norm("MARKETING" + "_" + "AIRLINE" + "_" + "NETWORK")) == 2
  {
    NormWords3("MARKETING", "AIRLINE", "NETWORK");
  }

  lemma KeyOfMarketingcarrier()
    ensures KeyOwner(Norm("MARKETING" + "CARRIER")) == 2
  {
    NormJoin2("MARKETING", "CARRIER");
  }

  lemma KeyOfMktCarrier()
    ensures KeyOwner(Norm("MKT" + "_" + "CARRIER")) == 2
  {
    NormWords2("MKT", "CARRIER");
  }

  lemma KeyOfMktuniquecarrier()
    ensures KeyOwner(Norm("MKT" + "UNIQUE" + "CARRIER")) == 2
  {
    NormJoin3("MKT", "UNIQUE", "CARRIER");
  }

  lemma KeyOfReportingAirline()
    ensures KeyOwner(Norm("REPORTING" + "_" + "AIRLINE")) == 2
  {
    NormWords2("REPORTING", "AIRLINE");
  }

  lemma KeyOfIataCodeReportingAirline()
    ensures KeyOwner(Norm("IATA" + "_" + "CODE" + "_" + "REPORTING" + "_" + "AIRLINE")) == 2
  {
    NormWords4("IATA", "CODE", "REPORTING", "AIRLINE");
  }

  lemma OwnedBy2()
    ensures EntryOwned(CanonMap[2], 2)
  {
    KeyOfMktUniqueCarrier(); KeyOfMarketingAirlineNetwork(); KeyOfMarketingcarrier(); KeyOfMktCarrier(); KeyOfMktuniquecarrier(); KeyOfReportingAirline(); KeyOfIataCodeReportingAirline();
  }

  lemma KeyOfOpCarrierFlNum()
    ensures KeyOwner(Norm("OP" + "_" + "CARRIER" + "_" + "FL" + "_" + "NUM")) == 3
  {
    NormWords4("OP", "CARRIER", "FL", "NUM");
  }

  lemma KeyOfOpCarrierFlnum()
    ensures KeyOwner(Norm("OP" + "_" + "CARRIER" + "_" + "FLNUM")) == 3
  {
    NormWords3("OP", "CARRIER", "FLNUM");
  }

  lemma KeyOfFlNum()
    ensures KeyOwner(Norm("FL" + "_" + "NUM")) == 3
  {
    NormWords2("FL", "NUM");
  }

  lemma KeyOfFlightNum()
    ensures KeyOwner(Norm("FLIGHT" + "_" + "NUM")) == 3
  {
    NormWords2("FLIGHT", "NUM");
  }

  lemma KeyOfFlightNumber()
    ensures KeyOwner(Norm("FLIGHT" + "_" + "NUMBER")) == 3
  {
    NormWords2("FLIGHT", "NUMBER");
  }

  lemma KeyOfFlightNumberReportingAirline()
    ensures KeyOwner(Norm("FLIGHT" + "_" + "NUMBER" + "_" + "REPORTING" + "_" + "AIRLINE")) == 3
  {
    NormWords4("FLIGHT", "NUMBER", "REPORTING", "AIRLINE");
  }

  lemma KeyOfFlightNumberOperatingAirline()
    ensures KeyOwner(Norm("FLIGHT" + "_" + "NUMBER" + "_" + "OPERATING" + "_" + "AIRLINE")) == 3
  {
    NormWords4("FLIGHT", "NUMBER", "OPERATING", "AIRLINE");
  }

  lemma KeyOfFlightNumberReportingairline()
    ensures KeyOwner(Norm("FLIGHT" + "_" + "NUMBER" + "_" + "REPORTING" + "AIRLINE")) == 3
  {
    NormWordsJoin("FLIGHT", "NUMBER", "REPORTING", "AIRLINE");
  }

  lemma KeyOfFlightNumberOperatingairline()
    ensures KeyOwner(Norm("FLIGHT" + "_" + "NUMBER" + "_" + "OPERATING" + "AIRLINE")) == 3
  {
    NormWordsJoin("FLIGHT", "NUMBER", "OPERATING", "AIRLINE");
  }

  lemma OwnedBy3()
    ensures EntryOwned(CanonMap[3], 3)
  {
    KeyOfOpCarrierFlNum(); KeyOfOpCarrierFlnum(); KeyOfFlNum(); KeyOfFlightNum(); KeyOfFlightNumber(); KeyOfFlightNumberReportingAirline(); KeyOfFlightNumberOperatingAirline(); KeyOfFlightNumberReportingairline(); KeyOfFlightNumberOperatingairline();
  }

  lemma KeyOfOrigin()
    ensures KeyOwner(Norm("ORIGIN")) == 4
  {
    NormWord("ORIGIN");
  }

  lemma KeyOfOriginairport()
    ensures KeyOwner(Norm("ORIGIN" + "AIRPORT")) == 4
  {
    NormJoin2("ORIGIN", "AIRPORT");
  }

  lemma KeyOfOriginAirport()
    ensures KeyOwner(Norm("ORIGIN" + "_" + "AIRPORT")) == 4
  {
    NormWords2("ORIGIN", "AIRPORT");
  }

  lemma OwnedBy4()
    ensures EntryOwned(CanonMap[4], 4)
  {
    KeyOfOrigin(); KeyOfOriginairport(); KeyOfOriginAirport();
  }

  lemma KeyOfDest()
    ensures KeyOwner(Norm("DEST")) == 5
  {
    NormWord("DEST");
  }

  lemma KeyOfDestairport()
    ensures KeyOwner(Norm("DEST" + "AIRPORT")) == 5
  {
    NormJoin2("DEST", "AIRPORT");
  }

  lemma KeyOfDestAirport()
    ensures KeyOwner(Norm("DEST" + "_" + "AIRPORT")) == 5
  {
    NormWords2("DEST", "AIRPORT");
  }

  lemma OwnedBy5()
    ensures EntryOwned(CanonMap[5], 5)
  {
    KeyOfDest(); KeyOfDestairport(); KeyOfDestAirport();
  }

  lemma KeyOfOriginStateAbr()
    ensures KeyOwner(Norm("ORIGIN" + "_" + "STATE" + "_" + "ABR")) == 6
  {
    NormWords3("ORIGIN", "STATE", "ABR");
  }

  lemma KeyOfOriginStateAbbreviation()
    ensures KeyOwner(Norm("ORIGIN" + "_" + "STATE" + "_" + "ABBREVIATION")) == 6
  {
    NormWords3("ORIGIN", "STATE", "ABBREVIATION");
  }

  lemma KeyOfOriginstate()
    ensures KeyOwner(Norm("ORIGIN" + "STATE")) == 6
  {
    NormJoin2("ORIGIN", "STATE");
  }

  lemma KeyOfOriginState()
    ensures KeyOwner(Norm("ORIGIN" + "_" + "STATE")) == 6
  {
    NormWords2("ORIGIN", "STATE");
  }

  lemma OwnedBy6()
    ensures EntryOwned(CanonMap[6], 6)
  {
    KeyOfOriginStateAbr(); KeyOfOriginStateAbbreviation(); KeyOfOriginstate(); KeyOfOriginState();
  }

  lemma KeyOfDestStateAbr()
    ensures KeyOwner(Norm("DEST" + "_" + "STATE" + "_" + "ABR")) == 7
  {
    NormWords3("DEST", "STATE", "ABR");
  }

  lemma KeyOfDestStateAbbreviation()
    ensures KeyOwner(Norm("DEST" + "_" + "STATE" + "_" + "ABBREVIATION")) == 7
  {
    NormWords3("DEST", "STATE", "ABBREVIATION");
  }

  lemma KeyOfDeststate()
    ensures KeyOwner(Norm("DESTSTATE")) == 7
  {
    NormWord("DESTSTATE");
  }

  lemma KeyOfDestState()
    ensures KeyOwner(Norm("DEST" + "_" + "STATE")) == 7
  {
    NormWords2("DEST", "STATE");
  }

  lemma OwnedBy7()
    ensures EntryOwned(CanonMap[7], 7)
  {
    KeyOfDestStateAbr(); KeyOfDestStateAbbreviation(); KeyOfDeststate(); KeyOfDestState();
  }

  lemma KeyOfOriginCountryName()
    ensures KeyOwner(Norm("ORIGIN" + "_" + "COUNTRY" + "_" + "NAME")) == 8
  {
    NormWords3("ORIGIN", "COUNTRY", "NAME");
  }

  lemma KeyOfOrigincountryname()
    ensures KeyOwner(Norm("ORIGIN" + "COUNTRY" + "NAME")) == 8
  {
    NormJoin3("ORIGIN", "COUNTRY", "NAME");
  }

  lemma KeyOfOriginCountry()
    ensures KeyOwner(Norm("ORIGIN" + "_" + "COUNTRY")) == 8
  {
    NormWords2("ORIGIN", "COUNTRY");
  }

  lemma OwnedBy8()
    ensures EntryOwned(CanonMap[8], 8)
  {
    KeyOfOriginCountryName(); KeyOfOrigincountryname(); KeyOfOriginCountry();
  }

  lemma KeyOfDestCountryName()
    ensures KeyOwner(Norm("DEST" + "_" + "COUNTRY" + "_" + "NAME")) == 9
  {
    NormWords3("DEST", "COUNTRY", "NAME");
  }

  lemma KeyOfDestcountryname()
    ensures KeyOwner(Norm("DEST" + "COUNTRY" + "NAME")) == 9
  {
    NormJoin3("DEST", "COUNTRY", "NAME");
  }

  lemma KeyOfDestCountry()
    ensures KeyOwner(Norm("DEST" + "_" + "COUNTRY")) == 9
  {
    NormWords2("DEST", "COUNTRY");
  }

  lemma OwnedBy9()
    ensures EntryOwned(CanonMap[9], 9)
  {
    KeyOfDestCountryName(); KeyOfDestcountryname(); KeyOfDestCountry();
  }

  lemma KeyOfCrsDepTime()
    ensures KeyOwner(Norm("CRS" + "_" + "DEP" + "_" + "TIME")) == 10
  {
    NormWords3("CRS", "DEP", "TIME");
  }

  lemma KeyOfCrsdeptime()
    ensures KeyOwner(Norm("CRS" + "DEP" + "TIME")) == 10
  {
    NormJoin3("CRS", "DEP", "TIME");
  }

  lemma OwnedBy10()
    ensures EntryOwned(CanonMap[10], 10)
  {
    KeyOfCrsDepTime(); KeyOfCrsdeptime();
  }

  lemma KeyOfDepTime()
    ensures KeyOwner(Norm("DEP" + "_" + "TIME")) == 11
  {
    NormWords2("DEP", "TIME");
  }

  lemma KeyOfDeptime()
    ensures KeyOwner(Norm("DEPTIME")) == 11
  {
    NormWord("DEPTIME");
  }

  lemma OwnedBy11()
    ensures EntryOwned(CanonMap[11], 11)
  {
    KeyOfDepTime(); KeyOfDeptime();
  }

  lemma KeyOfWheelsOff()
    ensures KeyOwner(Norm("WHEELS" + "_" + "OFF")) == 12
  {
    NormWords2("WHEELS", "OFF");
  }

  lemma KeyOfWheelsoff()
    ensures KeyOwner(Norm("WHEELSOFF")) == 12
  {
    NormWord("WHEELSOFF");
  }

  lemma OwnedBy12()
    ensures EntryOwned(CanonMap[12], 12)
  {
    KeyOfWheelsOff(); KeyOfWheelsoff();
  }

  lemma KeyOfCrsArrTime()
    ensures KeyOwner(Norm("CRS" + "_" + "ARR" + "_" + "TIME")) == 13
  {
    NormWords3("CRS", "ARR", "TIME");
  }

  lemma KeyOfCrsarrtime()
    ensures KeyOwner(Norm("CRS" + "ARR" + "TIME")) == 13
  {
    NormJoin3("CRS", "ARR", "TIME");
  }

  lemma OwnedBy13()
    ensures EntryOwned(CanonMap[13], 13)
  {
    KeyOfCrsArrTime(); KeyOfCrsarrtime();
  }

  lemma KeyOfArrTime()
    ensures KeyOwner(Norm("ARR" + "_" + "TIME")) == 14
  {
    NormWords2("ARR", "TIME");
  }

  lemma KeyOfArrtime()
    ensures KeyOwner(Norm("ARRTIME")) == 14
  {
    NormWord("ARRTIME");
  }

  lemma OwnedBy14()
    ensures EntryOwned(CanonMap[14], 14)
  {
    KeyOfArrTime(); KeyOfArrtime();
  }

  lemma KeyOfWheelsOn()
    ensures KeyOwner(Norm("WHEELS" + "_" + "ON")) == 15
  {
    NormWords2("WHEELS", "ON");
  }

  lemma KeyOfWheelson()
    ensures KeyOwner(Norm("WHEELSON")) == 15
  {
    NormWord("WHEELSON");
  }

  lemma OwnedBy15()
    ensures EntryOwned(CanonMap[15], 15)
  {
    KeyOfWheelsOn(); KeyOfWheelson();
  }

  lemma KeyOfCancelled()
    ensures KeyOwner(Norm("CANCELLED")) == 16
  {
    NormWord("CANCELLED");
  }

  lemma KeyOfCancelledUnderscore()
    ensures KeyOwner(Norm("CANCELLED" + "_")) == 16
  {
    NormTrailing("CANCELLED");
  }

  lemma OwnedBy16()
    ensures EntryOwned(CanonMap[16], 16)
  {
    KeyOfCancelled(); KeyOfCancelledUnderscore();
  }

  lemma KeyOfDiverted()
    ensures KeyOwner(Norm("DIVERTED")) == 17
  {
    NormWord("DIVERTED");
  }

  lemma KeyOfDivertedUnderscore()
    ensures KeyOwner(Norm("DIVERTED" + "_")) == 17
  {
    NormTrailing("DIVERTED");
  }

  lemma OwnedBy17()
    ensures EntryOwned(CanonMap[17], 17)
  {
    KeyOfDiverted(); KeyOfDivertedUnderscore();
  }

  lemma OwnedByEntry(i: nat)
    requires i < |CanonMap|
    ensures EntryOwned(CanonMap[i], i)
  {
    if i == 0 {
      OwnedBy0();
    } else if i == 1 {
      OwnedBy1();
    } else if i == 2 {
      OwnedBy2();
    } else if i == 3 {
      OwnedBy3();
    } else if i == 4 {
      OwnedBy4();
    } else if i == 5 {
      OwnedBy5();
    } else if i == 6 {
      OwnedBy6();
    } else if i == 7 {
      OwnedBy7();
    } else if i == 8 {
      OwnedBy8();
    } else if i == 9 {
      OwnedBy9();
    } else if i == 10 {
      OwnedBy10();
    } else if i == 11 {
      OwnedBy11();
    } else if i == 12 {
      OwnedBy12();
    } else if i == 13 {
      OwnedBy13();
    } else if i == 14 {
      OwnedBy14();
    } else if i == 15 {
      OwnedBy15();
    } else if i == 16 {
      OwnedBy16();
    } else {
      OwnedBy17();
    }
  }

  /** A table whose entries own disjoint sets of keys is well formed. */
  lemma OwnedTableWellFormed(table: seq<CanonEntry>)
    requires forall i :: 0 <= i < |table| ==> EntryOwned(table[i], i)
    ensures WellFormedTable(table)
  {
    forall i, l, a, b | 0 <= i < |table| && 0 <= l < |table| && i != l && a in table[i].aliases && b in table[l].aliases
      ensures Norm(a) != Norm(b)
    {
      assert KeyOwner(Norm(a)) == i && KeyOwner(Norm(b)) == l;
    }
  }

  lemma CanonMapWellFormed()
    ensures WellFormedTable(CanonMap)
  {
    forall i | 0 <= i < |CanonMap|
      ensures EntryOwned(CanonMap[i], i)
    {
      OwnedByEntry(i);
    }
    OwnedTableWellFormed(CanonMap);
  }

  // ---------------------------------------------------------------------
  // `standardize_columns` with `CANON_MAP`
  // ---------------------------------------------------------------------

  /** Re-applying `standardize_columns` to its own output renames nothing. */
  lemma StandardizeIdempotent(t: Table)
    ensures Standardize(Standardize(t)) == Standardize(t)
  {
    CanonMapWellFormed();
    StandardizeIdempotentWith(CanonMap, t);
  }

  /** After `standardize_columns`, a canonical name is a column exactly when
      one of its aliases matched a column of the input. */
  lemma StandardizeHasCanonName(t: Table, i: nat)
    requires i < |CanonMap|
    ensures CanonMap[i].canon in Standardize(t).columns <==>
      exists a, c :: a in CanonMap[i].aliases && c in t.columns && Norm(a) == Norm(c)
  {
    CanonMapWellFormed();
    StandardizeHasCanon(CanonMap, t, i);
  }
}
