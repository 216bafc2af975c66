/** The dictionary `states` and the resolution of a state argument against
    it, as done at the top of `_build_uri`. */
module StateTable {

  import opened Wrappers
  import opened PyStr
  import opened StateRows

  /** A dictionary display built from distinct rows. */
  function Dictionary(rows: seq<(string, string)>): (m: map<string, string>)
    requires RowsDistinct(rows)
  {
    map i | 0 <= i < |rows| :: rows[i].0 := rows[i].1
  }

  /** `states`: the dictionary from lower-case full name to code. */
  function States(): map<string, string>
  {
    EntriesWellFormed();
    Dictionary(Entries)
  }

  /** Python's `ValueError`, with its message. */
  datatype ValueError = ValueError(message: string)

  /** The message `_build_uri` raises for a state it does not recognise. */
  function InvalidStateMessage(state: string): string
  {
    "Invalid State input \"" + state + "\""
  }

  /**
   * The state handling at the top of `_build_uri`, against a dictionary
   * `states`: a key in any letter case gives its value; failing that, a
   * string whose upper-case form is a value gives that value; anything else
   * raises `ValueError`.
   */
  function Resolve(states: map<string, string>, state: string): Result<string, ValueError>
  {
    if Lower(state) in states then Ok(states[Lower(state)])
    else if Upper(state) in states.Values then Ok(Upper(state))
    else Err(ValueError(InvalidStateMessage(state)))
  }

  /** `_build_uri`'s resolution against the fixed table `states`. */
  function ResolveState(state: string): Result<string, ValueError>
  {
    Resolve(States(), state)
  }

  /* ------------------------------------------- lemmas over any good table */

  /** Each row's name is a key of the dictionary, mapped to that row's code. */
  lemma DictionaryHasRow(rows: seq<(string, string)>, i: int)
    requires RowsDistinct(rows) && 0 <= i < |rows|
    ensures rows[i].0 in Dictionary(rows) && Dictionary(rows)[rows[i].0] == rows[i].1
  {
  }

  /** Each key of the dictionary is the name of a row, and maps to its code. */
  lemma DictionaryKeyIsRow(rows: seq<(string, string)>, name: string) returns (i: int)
    requires RowsDistinct(rows) && name in Dictionary(rows)
    ensures 0 <= i < |rows| && rows[i].0 == name && Dictionary(rows)[name] == rows[i].1
  {
    i :| 0 <= i < |rows| && rows[i].0 == name;
  }

  /** Each value of the dictionary is the code of a row. */
  lemma DictionaryValueIsRow(rows: seq<(string, string)>, code: string) returns (i: int)
    requires RowsDistinct(rows) && code in Dictionary(rows).Values
    ensures 0 <= i < |rows| && rows[i].1 == code
  {
    var name :| name in Dictionary(rows) && Dictionary(rows)[name] == code;
    i := DictionaryKeyIsRow(rows, name);
  }

  /** The full-name test comes first, but no string passes both tests, so
      the order of the two tests does not change the outcome. */
  lemma TestsExclusive(rows: seq<(string, string)>, lo: char, hi: char, state: string)
    requires WellFormedRows(rows, lo, hi)
    ensures !(Lower(state) in Dictionary(rows) && Upper(state) in Dictionary(rows).Values)
  {
    if Lower(state) in Dictionary(rows) && Upper(state) in Dictionary(rows).Values {
      var i := DictionaryKeyIsRow(rows, Lower(state));
      var j := DictionaryValueIsRow(rows, Upper(state));
      assert false;
    }
  }

  /** A full name of the table, in any letter case, resolves to its code. */
  lemma NameAnyCase(rows: seq<(string, string)>, lo: char, hi: char, state: string, i: int)
    requires WellFormedRows(rows, lo, hi)
    requires 0 <= i < |rows| && EqualIgnoringCase(state, rows[i].0)
    ensures Resolve(Dictionary(rows), state) == Ok(rows[i].1)
  {
    assert IsTableName(rows[i].0);
    LowerOfLowerCase(rows[i].0);
    DictionaryHasRow(rows, i);
  }

  /** A code of the table, in any letter case, resolves to the code itself. */
  lemma CodeAnyCase(rows: seq<(string, string)>, lo: char, hi: char, state: string, i: int)
    requires WellFormedRows(rows, lo, hi)
    requires 0 <= i < |rows| && EqualIgnoringCase(state, rows[i].1)
    ensures Resolve(Dictionary(rows), state) == Ok(rows[i].1)
  {
    assert IsCode(rows[i].1);
    EqualIgnoringCaseUpper(state, rows[i].1);
    DictionaryHasRow(rows, i);
    TestsExclusive(rows, lo, hi, state);
  }

  /** What the resolution returns is always the code of a row whose name or
      code equals the argument ignoring letter case; when it fails it raises
      `ValueError` with a message quoting the argument. */
  lemma ResolveSound(rows: seq<(string, string)>, lo: char, hi: char, state: string)
    returns (i: int)
    requires WellFormedRows(rows, lo, hi)
    requires Resolve(Dictionary(rows), state).Ok?
    ensures 0 <= i < |rows| && Resolve(Dictionary(rows), state).value == rows[i].1
    ensures EqualIgnoringCase(state, rows[i].0) || EqualIgnoringCase(state, rows[i].1)
    ensures IsCode(rows[i].1)
  {
    var states := Dictionary(rows);
    if Lower(state) in states {
      i := DictionaryKeyIsRow(rows, Lower(state));
      assert IsTableName(rows[i].0);
      LowerOfLowerCase(rows[i].0);
    } else {
      i := DictionaryValueIsRow(rows, Upper(state));
      assert IsCode(rows[i].1);
      EqualIgnoringCaseUpper(state, rows[i].1);
    }
  }

  /* ------------------------------------------------ the table `states` */

  /**
   * `ResolveState` succeeds exactly on the strings that equal, ignoring
   * letter case, the full name or the code of one of the fifty rows, and
   * then gives that row's code; on any other string it raises `ValueError`
   * with a message quoting the argument.
   */
  lemma ResolveStateMeaning(state: string)
    ensures ResolveState(state).Ok? <==>
      exists i :: 0 <= i < |Entries| &&
        (EqualIgnoringCase(state, Entries[i].0) || EqualIgnoringCase(state, Entries[i].1))
    ensures forall i ::
      (0 <= i < |Entries| &&
        (EqualIgnoringCase(state, Entries[i].0) || EqualIgnoringCase(state, Entries[i].1)))
      ==> ResolveState(state) == Ok(Entries[i].1)
    ensures ResolveState(state).Ok? ==> IsCode(ResolveState(state).value)
    ensures ResolveState(state).Err? ==>
      ResolveState(state).error == ValueError(InvalidStateMessage(state))
  {
    EntriesWellFormed();
    forall i | 0 <= i < |Entries| &&
        (EqualIgnoringCase(state, Entries[i].0) || EqualIgnoringCase(state, Entries[i].1))
      ensures ResolveState(state) == Ok(Entries[i].1)
    {
      if EqualIgnoringCase(state, Entries[i].0) {
        NameAnyCase(Entries, 'a', 'w', state, i);
      } else {
        CodeAnyCase(Entries, 'a', 'w', state, i);
      }
    }
    if ResolveState(state).Ok? {
      var i := ResolveSound(Entries, 'a', 'w', state);
    }
  }

  /** "New York" and "NEW YORK" give "NY". */
  lemma NewYorkExample()
    ensures ResolveState("New York") == Ok("NY")
    ensures ResolveState("NEW YORK") == Ok("NY")
  {
    EntriesWellFormed();
    assert Entries[31] == ("new york", "NY");
    assert Lower("New York") == "new york" == Lower("NEW YORK");
    NameAnyCase(Entries, 'a', 'w', "New York", 31);
    NameAnyCase(Entries, 'a', 'w', "NEW YORK", 31);
  }

  /** "ca" gives "CA". */
  lemma CaliforniaCodeExample()
    ensures ResolveState("ca") == Ok("CA")
  {
    EntriesWellFormed();
    assert Entries[4] == ("california", "CA");
    assert Lower("ca") == Lower("CA");
    CodeAnyCase(Entries, 'a', 'w', "ca", 4);
  }

  /** The dotted abbreviation "N.Y." is neither a name nor a code. */
  lemma DottedAbbreviationExample()
    ensures ResolveState("N.Y.") == Err(ValueError("Invalid State input \"N.Y.\""))
  {
    EntriesWellFormed();
    assert Lower("N.Y.")[1] == '.' && |Upper("N.Y.")| == 4;
    if Lower("N.Y.") in States() {
      var i := DictionaryKeyIsRow(Entries, Lower("N.Y."));
      assert false;
    }
    if Upper("N.Y.") in States().Values {
      var i := DictionaryValueIsRow(Entries, Upper("N.Y."));
      assert false;
    }
    assert InvalidStateMessage("N.Y.") == "Invalid State input \"N.Y.\"";
  }
}
