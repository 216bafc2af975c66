/** The rows of the fixed table `states`: the fifty U.S. states, full
    lower-case name and two-letter code, in the order of the source, and the
    checks that the rows are well formed. */
module StateRows {

  // The rows are grouped by the initial letter of the name, so that each
  // group can be checked on its own.
  const EntriesAToC: seq<(string, string)> := [
      ("alabama", "AL"),
      ("alaska", "AK"),
      ("arizona", "AZ"),
      ("arkansas", "AR"),
      ("california", "CA"),
      ("colorado", "CO"),
      ("connecticut", "CT")
    ]

  const EntriesDToI: seq<(string, string)> := [
      ("delaware", "DE"),
      ("florida", "FL"),
      ("georgia", "GA"),
      ("hawaii", "HI"),
      ("idaho", "ID"),
      ("illinois", "IL"),
      ("indiana", "IN"),
      ("iowa", "IA")
    ]

  const EntriesKToM: seq<(string, string)> := [
      ("kansas", "KS"),
      ("kentucky", "KY"),
      ("louisiana", "LA"),
      ("maine", "ME"),
      ("maryland", "MD"),
      ("massachusetts", "MA"),
      ("michigan", "MI"),
      ("minnesota", "MN"),
      ("mississippi", "MS"),
      ("missouri", "MO"),
      ("montana", "MT")
    ]

  const EntriesN: seq<(string, string)> := [
      ("nebraska", "NE"),
      ("nevada", "NV"),
      ("new hampshire", "NH"),
      ("new jersey", "NJ"),
      ("new mexico", "NM"),
      ("new york", "NY"),
      ("north carolina", "NC"),
      ("north dakota", "ND")
    ]

  const EntriesOToR: seq<(string, string)> := [
      ("ohio", "OH"),
      ("oklahoma", "OK"),
      ("oregon", "OR"),
      ("pennsylvania", "PA"),
      ("rhode island", "RI")
    ]

  const EntriesSToT: seq<(string, string)> := [
      ("south carolina", "SC"),
      ("south dakota", "SD"),
      ("tennessee", "TN"),
      ("texas", "TX")
    ]

  const EntriesUToW: seq<(string, string)> := [
      ("utah", "UT"),
      ("vermont", "VT"),
      ("virginia", "VA"),
      ("washington", "WA"),
      ("west virginia", "WV"),
      ("wisconsin", "WI"),
      ("wyoming", "WY")
    ]

  /** All fifty rows, in source order. */
  const Entries: seq<(string, string)> :=
    EntriesAToC + EntriesDToI + EntriesKToM + EntriesN + EntriesOToR + EntriesSToT + EntriesUToW

  /** A full name as it stands in the table: lower-case letters and spaces,
      at least four of them. */
  predicate IsTableName(k: string)
  {
    4 <= |k| && forall i :: 0 <= i < |k| ==> 'a' <= k[i] <= 'z' || k[i] == ' '
  }

  /** A two-letter upper-case state code. */
  predicate IsCode(c: string)
  {
    |c| == 2 && 'A' <= c[0] <= 'Z' && 'A' <= c[1] <= 'Z'
  }

  /** Every row's name is a table name. */
  ghost predicate RowsNamed(rows: seq<(string, string)>)
  {
    forall i :: 0 <= i < |rows| ==> IsTableName(rows[i].0)
  }

  /** Every row's code is a code starting with the upper-case form of the
      first letter of its name, and that letter lies from `lo` to `hi`. */
  ghost predicate RowsCodedIn(rows: seq<(string, string)>, lo: char, hi: char)
  {
    forall i :: 0 <= i < |rows| ==>
      && IsCode(rows[i].1) && rows[i].0 != [] && lo <= rows[i].0[0] <= hi
      && rows[i].1[0] as int == rows[i].0[0] as int - 32
  }

  /** No name occurs in two rows. */
  ghost predicate RowsDistinct(rows: seq<(string, string)>)
  {
    forall i, j :: 0 <= i < j < |rows| ==> rows[i].0 != rows[j].0
  }

  /** No code occurs in two rows. */
  ghost predicate CodesDistinct(rows: seq<(string, string)>)
  {
    forall i, j :: 0 <= i < j < |rows| ==> rows[i].1 != rows[j].1
  }

  ghost predicate WellFormedRows(rows: seq<(string, string)>, lo: char, hi: char)
  {
    RowsNamed(rows) && RowsCodedIn(rows, lo, hi) && RowsDistinct(rows) && CodesDistinct(rows)
  }

  lemma EntriesAToCWellFormed()
    ensures WellFormedRows(EntriesAToC, 'a', 'c')
  {
    EntriesAToCNamed();
    EntriesAToCCoded();
    EntriesAToCNamesDistinct();
    EntriesAToCCodesDistinct();
  }

  lemma EntriesAToCCoded()
    ensures RowsCodedIn(EntriesAToC, 'a', 'c')
  {
  }

  lemma EntriesAToCNamesDistinct()
    ensures RowsDistinct(EntriesAToC)
  {
  }

  lemma EntriesAToCCodesDistinct()
    ensures CodesDistinct(EntriesAToC)
  {
  }

  lemma EntriesAToCNamed()
    ensures RowsNamed(EntriesAToC)
  {
  }

  lemma EntriesDToIWellFormed()
    ensures WellFormedRows(EntriesDToI, 'd', 'i')
  {
    EntriesDToINamed();
    EntriesDToICoded();
    EntriesDToINamesDistinct();
    EntriesDToICodesDistinct();
  }

  lemma EntriesDToICoded()
    ensures RowsCodedIn(EntriesDToI, 'd', 'i')
  {
  }

  lemma EntriesDToINamesDistinct()
    ensures RowsDistinct(EntriesDToI)
  {
  }

  lemma EntriesDToICodesDistinct()
    ensures CodesDistinct(EntriesDToI)
  {
  }

  lemma EntriesDToINamed()
    ensures RowsNamed(EntriesDToI)
  {
  }

  lemma EntriesKToMWellFormed()
    ensures WellFormedRows(EntriesKToM, 'k', 'm')
  {
    EntriesKToMNamed();
    EntriesKToMCoded();
    EntriesKToMNamesDistinct();
    EntriesKToMCodesDistinct();
  }

  lemma EntriesKToMCoded()
    ensures RowsCodedIn(EntriesKToM, 'k', 'm')
  {
  }

  lemma EntriesKToMNamesDistinct()
    ensures RowsDistinct(EntriesKToM)
  {
  }

  lemma EntriesKToMCodesDistinct()
    ensures CodesDistinct(EntriesKToM)
  {
  }

  lemma EntriesKToMNamed()
    ensures RowsNamed(EntriesKToM)
  {
  }

  lemma EntriesNWellFormed()
    ensures WellFormedRows(EntriesN, 'n', 'n')
  {
    EntriesNNamed();
    EntriesNCoded();
    EntriesNNamesDistinct();
    EntriesNCodesDistinct();
  }

  lemma EntriesNCoded()
    ensures RowsCodedIn(EntriesN, 'n', 'n')
  {
  }

  lemma EntriesNNamesDistinct()
    ensures RowsDistinct(EntriesN)
  {
  }

  lemma EntriesNCodesDistinct()
    ensures CodesDistinct(EntriesN)
  {
  }

  lemma EntriesNNamed()
    ensures RowsNamed(EntriesN)
  {
  }

  lemma EntriesOToRWellFormed()
    ensures WellFormedRows(EntriesOToR, 'o', 'r')
  {
    EntriesOToRNamed();
    EntriesOToRCoded();
    EntriesOToRNamesDistinct();
    EntriesOToRCodesDistinct();
  }

  lemma EntriesOToRCoded()
    ensures RowsCodedIn(EntriesOToR, 'o', 'r')
  {
  }

  lemma EntriesOToRNamesDistinct()
    ensures RowsDistinct(EntriesOToR)
  {
  }

  lemma EntriesOToRCodesDistinct()
    ensures CodesDistinct(EntriesOToR)
  {
  }

  lemma EntriesOToRNamed()
    ensures RowsNamed(EntriesOToR)
  {
  }

  lemma EntriesSToTWellFormed()
    ensures WellFormedRows(EntriesSToT, 's', 't')
  {
    EntriesSToTNamed();
    EntriesSToTCoded();
    EntriesSToTNamesDistinct();
    EntriesSToTCodesDistinct();
  }

  lemma EntriesSToTCoded()
    ensures RowsCodedIn(EntriesSToT, 's', 't')
  {
  }

  lemma EntriesSToTNamesDistinct()
    ensures RowsDistinct(EntriesSToT)
  {
  }

  lemma EntriesSToTCodesDistinct()
    ensures CodesDistinct(EntriesSToT)
  {
  }

  lemma EntriesSToTNamed()
    ensures RowsNamed(EntriesSToT)
  {
  }

  lemma EntriesUToWWellFormed()
    ensures WellFormedRows(EntriesUToW, 'u', 'w')
  {
    EntriesUToWNamed();
    EntriesUToWCoded();
    EntriesUToWNamesDistinct();
    EntriesUToWCodesDistinct();
  }

  lemma EntriesUToWCoded()
    ensures RowsCodedIn(EntriesUToW, 'u', 'w')
  {
  }

  lemma EntriesUToWNamesDistinct()
    ensures RowsDistinct(EntriesUToW)
  {
  }

  lemma EntriesUToWCodesDistinct()
    ensures CodesDistinct(EntriesUToW)
  {
  }

  lemma EntriesUToWNamed()
    ensures RowsNamed(EntriesUToW)
  {
  }

  /** Two well-formed groups over disjoint letter ranges join into one. */
  lemma JoinWellFormed(a: seq<(string, string)>, b: seq<(string, string)>,
                       lo: char, mid: char, next: char, hi: char)
    requires WellFormedRows(a, lo, mid) && WellFormedRows(b, next, hi)
    requires lo <= mid < next <= hi
    ensures WellFormedRows(a + b, lo, hi)
  {
    var ab := a + b;
    forall i, j | 0 <= i < j < |ab| ensures ab[i].0 != ab[j].0 && ab[i].1 != ab[j].1 {
      if i < |a| <= j {
        assert ab[i].0[0] <= mid < next <= ab[j].0[0];
        assert ab[i].1[0] != ab[j].1[0];
      }
    }
  }

  /** The whole table is well formed; in particular no name occurs twice, so
      the dictionary display keeps every row, and no code occurs twice. */
  lemma EntriesWellFormed()
    ensures |Entries| == 50
    ensures WellFormedRows(Entries, 'a', 'w')
  {
    EntriesAToCWellFormed();
    EntriesDToIWellFormed();
    EntriesKToMWellFormed();
    EntriesNWellFormed();
    EntriesOToRWellFormed();
    EntriesSToTWellFormed();
    EntriesUToWWellFormed();
    var t := EntriesAToC;
    JoinWellFormed(t, EntriesDToI, 'a', 'c', 'd', 'i');
    t := t + EntriesDToI;
    JoinWellFormed(t, EntriesKToM, 'a', 'i', 'k', 'm');
    t := t + EntriesKToM;
    JoinWellFormed(t, EntriesN, 'a', 'm', 'n', 'n');
    t := t + EntriesN;
    JoinWellFormed(t, EntriesOToR, 'a', 'n', 'o', 'r');
    t := t + EntriesOToR;
    JoinWellFormed(t, EntriesSToT, 'a', 'r', 's', 't');
    t := t + EntriesSToT;
    JoinWellFormed(t, EntriesUToW, 'a', 't', 'u', 'w');
  }
}
