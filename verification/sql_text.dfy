/**
 * The text of SQL statements, only as far as their shape and their `?`
 * placeholders go: `Array.prototype.join` and a placeholder count.
 */
module SqlText {

  /**
   * `parts.join(sep)`: the parts in order with `sep` between neighbours, so
   * the text starts with the first part and ends with the last.
   */
  function Join(parts: seq<string>, sep: string): (r: string)
    ensures |parts| == 0 ==> r == ""
    ensures |parts| > 0 ==> parts[0] <= r
    ensures |parts| > 0 ==> |parts[|parts| - 1]| <= |r| && r[|r| - |parts[|parts| - 1]|..] == parts[|parts| - 1]
  {
    if |parts| == 0 then ""
    else if |parts| == 1 then parts[0]
    else parts[0] + sep + Join(parts[1..], sep)
  }

  /** The number of `?` placeholders in a statement text. */
  function Placeholders(s: string): (n: nat) {
    if s == [] then 0 else (if s[0] == '?' then 1 else 0) + Placeholders(s[1..])
  }

  /** Placeholders of a concatenation add up. */
  lemma {:induction false} PlaceholdersAppend(a: string, b: string)
    ensures Placeholders(a + b) == Placeholders(a) + Placeholders(b)
  {
    if a != [] {
      assert (a + b)[1..] == a[1..] + b;
      PlaceholdersAppend(a[1..], b);
    } else {
      assert a + b == b;
    }
  }

  /** A text without a `?` character has no placeholder. */
  lemma {:induction false} NoPlaceholders(s: string)
    requires forall i :: 0 <= i < |s| ==> s[i] != '?'
    ensures Placeholders(s) == 0
  {
    if s != [] {
      NoPlaceholders(s[1..]);
    }
  }

  /** A text without a `?` character, followed by one `?`, has exactly one placeholder. */
  lemma OnePlaceholder(prefix: string)
    requires forall i :: 0 <= i < |prefix| ==> prefix[i] != '?'
    ensures Placeholders(prefix + "?") == 1
  {
    NoPlaceholders(prefix);
    PlaceholdersAppend(prefix, "?");
  }

  /** Joining parts with one placeholder each, by a separator without any, gives one per part. */
  lemma {:induction false} PlaceholdersJoin(parts: seq<string>, sep: string)
    requires forall i :: 0 <= i < |parts| ==> Placeholders(parts[i]) == 1
    requires Placeholders(sep) == 0
    ensures Placeholders(Join(parts, sep)) == |parts|
  {
    if |parts| > 1 {
      PlaceholdersJoin(parts[1..], sep);
      PlaceholdersAppend(parts[0], sep);
      PlaceholdersAppend(parts[0] + sep, Join(parts[1..], sep));
    }
  }

  /**
   * The text of `UPDATE todos SET <fields joined by ", "> WHERE id = ?`: the
   * template adds exactly one placeholder, the id's, to those of the SET list.
   */
  function UpdateSql(fields: seq<string>): (sql: string)
    ensures Placeholders(sql) == Placeholders(Join(fields, ", ")) + 1
  {
    UpdateHead();
    UpdateTail();
    Enclosed("UPDATE todos SET ", Join(fields, ", "), " WHERE id = ?");
    "UPDATE todos SET " + Join(fields, ", ") + " WHERE id = ?"
  }

  /** With one placeholder per SET entry, the UPDATE text holds one more for the id. */
  lemma UpdatePlaceholders(fields: seq<string>)
    requires forall i :: 0 <= i < |fields| ==> Placeholders(fields[i]) == 1
    ensures Placeholders(UpdateSql(fields)) == |fields| + 1
  {
    NoPlaceholders(", ");
    PlaceholdersJoin(fields, ", ");
  }

  /** The UPDATE's head has no placeholder. */
  lemma UpdateHead()
    ensures Placeholders("UPDATE todos SET ") == 0
  {
    NoPlaceholders("UPDATE todos SET ");
  }

  /** The UPDATE's tail has one placeholder, for the id. */
  lemma UpdateTail()
    ensures Placeholders(" WHERE id = ?") == 1
  {
    OnePlaceholder(" WHERE id = ");
    assert " WHERE id = " + "?" == " WHERE id = ?";
  }

  /** Placeholders of a text enclosed between two others add up. */
  lemma Enclosed(before: string, s: string, after: string)
    ensures Placeholders(before + s + after) == Placeholders(before) + Placeholders(s) + Placeholders(after)
  {
    PlaceholdersAppend(before, s);
    PlaceholdersAppend(before + s, after);
  }
}
