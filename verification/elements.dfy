/** The slice of the periodic table the core consults: the symbol of each
    atomic number and the number of each symbol. The real table is an
    external library, so it enters the model as a pair of finite maps. */
module Elements {

  import opened Text

  datatype ElementTable = ElementTable(symbolOf: map<int, string>, numberOf: map<string, int>)

  /** The two lookups are inverse to each other and every symbol is a
      non-empty capitalised string, as in the real table ('H', 'He', 'Zn'). */
  predicate WellFormed(table: ElementTable) {
    (forall z :: z in table.symbolOf ==>
       table.symbolOf[z] in table.numberOf && table.numberOf[table.symbolOf[z]] == z)
    && (forall s :: s in table.numberOf ==>
       table.numberOf[s] in table.symbolOf && table.symbolOf[table.numberOf[s]] == s)
    && (forall s :: s in table.numberOf ==> s != "" && Capitalize(s) == s)
  }
}
