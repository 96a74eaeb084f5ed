/**
 * Resolution of the interface token given on the command line (`parseIfName`).
 *
 * A token of the form `.<digits>` names an interface index directly; its name is then
 * read with one Get of `ifName.<index>`. Any other token is a case-insensitive
 * substring of an interface name: the whole `ifName` column of the IF-MIB `ifXTable`
 * (RFC 2863, section 6, OID 1.3.6.1.2.1.31.1.1.1.1) is walked and the first row in
 * walk order whose name contains the token wins.
 */
module Resolver {
  import opened Wrappers
  import opened Snmp
  import opened Text

  /** One binding of the walked `ifName` column: the OID component after the column's base, and the name. */
  datatype IfNameRow = IfNameRow(index: int, name: string)

  /** What resolution yields: the interface's name and its index. */
  datatype Resolved = Resolved(ifName: string, ifIndex: int)

  /** The regular expression `^\.\d+$`: a dot followed by one or more decimal digits and nothing else. */
  predicate IsNumericSuffix(token: string)
    ensures IsNumericSuffix(token) <==>
              |token| >= 2 && token[0] == '.' && forall i :: 1 <= i < |token| ==> IsDigit(token[i])
  {
    && |token| >= 2
    && token[0] == '.'
    && var digits := token[1..];
       assert forall i :: 1 <= i < |token| ==> token[i] == digits[i - 1];
       AllDigits(digits)
  }

  /** The interface index a numeric-suffix token names: `strconv.Atoi(name[1:])`. */
  function SuffixIndex(token: string): (n: nat)
    requires IsNumericSuffix(token)
    ensures n < Pow10(|token| - 1)
    ensures token[1] != '0' || |token| == 2 ==> FormatDecimal(n) == token[1..]
  {
    var digits := token[1..];
    if digits[0] != '0' || |digits| == 1 then
      FormatDecimalOfValue(digits);
      DecimalValue(digits)
    else
      DecimalValue(digits)
  }

  /** The substring test: the upper-cased name contains the upper-cased token. */
  predicate Matches(row: IfNameRow, token: string)
    ensures Matches(row, token) <==> exists i :: OccursAt(Upper(row.name), Upper(token), i)
  {
    IndexOf(Upper(row.name), Upper(token)) != -1
  }

  /** The position of the first row that matches, or None when no row does. */
  function FirstMatch(rows: seq<IfNameRow>, token: string): (r: Option<nat>)
    ensures r.None? <==> forall k :: 0 <= k < |rows| ==> !Matches(rows[k], token)
    ensures r.Some? ==> r.value < |rows| && Matches(rows[r.value], token)
    ensures r.Some? ==> forall k :: 0 <= k < r.value ==> !Matches(rows[k], token)
  {
    if rows == [] then None
    else if Matches(rows[0], token) then Some(0)
    else
      match FirstMatch(rows[1..], token)
      case None => None
      case Some(k) => Some(k + 1)
  }

  /**
   * `parseIfName`. `lookup` is the agent's answer to the Get of `ifName.<index>`, consulted
   * only for a numeric-suffix token; `walk` is its answer to the bulk walk of the `ifName`
   * column, consulted only for any other token.
   */
  function ParseIfName(token: string, lookup: Reply<string>, walk: Reply<seq<IfNameRow>>): (r: Result<Resolved, Error>)
    ensures IsNumericSuffix(token) && r.Success? ==>
              lookup.Response? && r.value == Resolved(lookup.varBinds, SuffixIndex(token))
    ensures !IsNumericSuffix(token) && r.Success? ==>
              walk.Response? && IfNameRow(r.value.ifIndex, r.value.ifName) in walk.varBinds
    ensures r.Failure? && r.error.NotFound? ==>
              !IsNumericSuffix(token) && walk.Response? &&
              forall k :: 0 <= k < |walk.varBinds| ==> !Matches(walk.varBinds[k], token)
  {
    if IsNumericSuffix(token) then
      match Check(lookup)
      case Failure(e) => Failure(e)
      case Success(name) => Success(Resolved(name, SuffixIndex(token)))
    else
      match Check(walk)
      case Failure(e) => Failure(e)
      case Success(rows) =>
        match FirstMatch(rows, token)
        case None => Failure(NotFound(token))
        case Some(k) => Success(Resolved(rows[k].name, rows[k].index))
  }

  /**
   * A numeric-suffix token resolves exactly when its Get succeeds with NoError, to the name
   * the agent returned and the decimal value of the digits; the walk plays no part.
   */
  lemma NumericSuffixResolution(token: string, lookup: Reply<string>, walk: Reply<seq<IfNameRow>>)
    requires IsNumericSuffix(token)
    ensures var r := ParseIfName(token, lookup, walk);
            && (r.Success? <==> lookup.Response? && lookup.errorStatus == NoError)
            && (r.Success? ==> r.value == Resolved(lookup.varBinds, DecimalValue(token[1..])))
            && (lookup.TransportError? ==> r == Failure(Transport(lookup.message)))
            && (lookup.Response? && lookup.errorStatus != NoError ==>
                  r == Failure(Status(lookup.errorStatus, lookup.errorIndex)))
  {
  }

  /**
   * Any other token resolves exactly when the walk succeeds and some walked row contains it,
   * ignoring case. It then resolves to the first such row: name and index come from that one
   * row and no earlier row matches. When no row matches the result is the not-found error.
   */
  lemma SubstringResolution(token: string, lookup: Reply<string>, walk: Reply<seq<IfNameRow>>)
    requires !IsNumericSuffix(token)
    ensures var r := ParseIfName(token, lookup, walk);
            && (walk.TransportError? ==> r == Failure(Transport(walk.message)))
            && (walk.Response? && walk.errorStatus != NoError ==>
                  r == Failure(Status(walk.errorStatus, walk.errorIndex)))
            && (r.Success? <==>
                  && walk.Response? && walk.errorStatus == NoError
                  && exists k :: 0 <= k < |walk.varBinds| && Matches(walk.varBinds[k], token))
            && (r.Success? ==>
                  exists k :: 0 <= k < |walk.varBinds| &&
                       r.value == Resolved(walk.varBinds[k].name, walk.varBinds[k].index) &&
                       Matches(walk.varBinds[k], token) &&
                       forall j :: 0 <= j < k ==> !Matches(walk.varBinds[j], token))
            && (walk.Response? && walk.errorStatus == NoError ==>
                  (r == Failure(NotFound(token)) <==>
                   forall k :: 0 <= k < |walk.varBinds| ==> !Matches(walk.varBinds[k], token)))
  {
  }

  /** Matching ignores case: a token and its upper-cased form select the same rows. */
  lemma MatchIgnoresCase(row: IfNameRow, token: string)
    ensures Matches(row, token) <==> Matches(row, Upper(token))
  {
    UpperIdempotent(token);
  }

  /** The empty token is not a numeric suffix and matches every row, so it selects the first row walked. */
  lemma EmptyTokenSelectsFirstRow(rows: seq<IfNameRow>, lookup: Reply<string>)
    requires |rows| > 0
    ensures ParseIfName("", lookup, Response(NoError, 0, rows)) == Success(Resolved(rows[0].name, rows[0].index))
  {
  }

  /** Writing an index with `strconv.Itoa` after a dot gives a token that resolves back to that index. */
  lemma SuffixIndexRoundTrip(index: nat, name: string)
    ensures IsNumericSuffix("." + FormatDecimal(index))
    ensures ParseIfName("." + FormatDecimal(index), Response(NoError, 0, name), TransportError(""))
              == Success(Resolved(name, index))
  {
  }
}
