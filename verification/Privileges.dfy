/** The table of known privileges (api/v1alpha1/privileges.go), and what it means for the names that
    grants report. */
module Privileges {
  import opened Strings

  // ---------------------------------------------------------------- known privileges

  // The table, in pieces small enough to check one by one.

  const PRIVILEGES_1: seq<string> := [
    "ALL PRIVILEGES", "ALL", "CREATE ACCOUNT", "CREATE DATA EXCHANGE LISTING", "CREATE DATABASE",
    "CREATE FAILOVER GROUP", "CREATE INTEGRATION", "CREATE NETWORK POLICY", "CREATE REPLICATION GROUP"]

  const PRIVILEGES_2: seq<string> := [
    "CREATE ROLE", "CREATE SHARE", "CREATE USER", "CREATE WAREHOUSE", "APPLY MASKING POLICY",
    "APPLY ROW ACCESS POLICY", "APPLY SESSION POLICY", "APPLY TAG", "ATTACH POLICY"]

  const PRIVILEGES_3: seq<string> := [
    "EXECUTE MANAGED TASK", "EXECUTE TASK", "IMPORT SHARE", "MANAGE GRANTS", "MONITOR EXECUTION",
    "MONITOR USAGE", "OVERRIDE SHARE RESTRICTIONS", "RESOLVE ALL", "CREATE APPLICATION"]

  const PRIVILEGES_4: seq<string> := [
    "CREATE APPLICATION PACKAGE", "CREATE COMPUTE POOL", "CREATE EXTERNAL VOLUME", "CREATE SCHEMA",
    "IMPORTED PRIVILEGES", "MODIFY", "MONITOR", "USAGE", "CREATE TABLE"]

  const PRIVILEGES_5: seq<string> := [
    "CREATE EXTERNAL TABLE", "CREATE VIEW", "CREATE MATERIALIZED VIEW", "CREATE TEMPORARY TABLE",
    "CREATE SEQUENCE", "CREATE FUNCTION", "CREATE PROCEDURE", "CREATE FILE FORMAT", "CREATE STAGE"]

  const PRIVILEGES_6: seq<string> := [
    "CREATE PIPE", "CREATE STREAM", "CREATE TASK", "CREATE TAG", "CREATE MASKING POLICY",
    "CREATE ROW ACCESS POLICY", "CREATE SESSION POLICY", "CREATE PASSWORD POLICY",
    "CREATE AUTHENTICATION POLICY"]

  const PRIVILEGES_7: seq<string> := [
    "CREATE NETWORK RULE", "CREATE SECRET", "CREATE ALERT", "CREATE DYNAMIC TABLE", "CREATE STREAMLIT",
    "ADD SEARCH OPTIMIZATION", "SELECT", "INSERT", "UPDATE"]

  const PRIVILEGES_8: seq<string> := [
    "DELETE", "TRUNCATE", "REFERENCES", "REBUILD", "OPERATE", "READ", "WRITE", "OWNERSHIP", "EVOLVE SCHEMA"]

  const PRIVILEGES_9: seq<string> := [
    "REFERENCE_USAGE", "APPLY BUDGET", "APPLYBUDGET"]

  predicate InTable(p: string) {
    p in PRIVILEGES_1 || p in PRIVILEGES_2 || p in PRIVILEGES_3 || p in PRIVILEGES_4 || p in PRIVILEGES_5 ||
    p in PRIVILEGES_6 || p in PRIVILEGES_7 || p in PRIVILEGES_8 || p in PRIVILEGES_9
  }

  /** `IsKnownPrivilege`. */
  predicate IsKnownPrivilege(privilege: string) {
    InTable(Upper(Trim(privilege)))
  }

  /** An entry of the table in capitals is recognised however it is cased and padded, and nothing is
      that is not such an entry. */
  lemma KnownUpToCase(privilege: string, p: string)
    requires Upper(p) == p && EqualFold(Trim(privilege), p)
    ensures IsKnownPrivilege(privilege) <==> InTable(p)
  {
  }

  /** A word beginning with ON starts at position `i`. */
  predicate WordOnAt(p: string, i: nat) {
    i + 1 < |p| && p[i] == 'O' && p[i + 1] == 'N' && (i == 0 || p[i - 1] == ' ')
  }

  lemma NoOnIn1(p: string, i: nat)
    requires p in PRIVILEGES_1
    ensures !WordOnAt(p, i)
  {
  }

  lemma NoOnIn2(p: string, i: nat)
    requires p in PRIVILEGES_2
    ensures !WordOnAt(p, i)
  {
  }

  lemma NoOnIn3(p: string, i: nat)
    requires p in PRIVILEGES_3
    ensures !WordOnAt(p, i)
  {
  }

  lemma NoOnIn4(p: string, i: nat)
    requires p in PRIVILEGES_4
    ensures !WordOnAt(p, i)
  {
  }

  lemma NoOnIn5(p: string, i: nat)
    requires p in PRIVILEGES_5
    ensures !WordOnAt(p, i)
  {
  }

  lemma NoOnIn6(p: string, i: nat)
    requires p in PRIVILEGES_6
    ensures !WordOnAt(p, i)
  {
  }

  lemma NoOnIn7(p: string, i: nat)
    requires p in PRIVILEGES_7
    ensures !WordOnAt(p, i)
  {
  }

  lemma NoOnIn8(p: string, i: nat)
    requires p in PRIVILEGES_8
    ensures !WordOnAt(p, i)
  {
  }

  lemma NoOnIn9(p: string, i: nat)
    requires p in PRIVILEGES_9
    ensures !WordOnAt(p, i)
  {
  }

  lemma NoOnInTable(p: string, i: nat)
    requires InTable(p)
    ensures !WordOnAt(p, i)
  {
    if p in PRIVILEGES_1 { NoOnIn1(p, i); }
    if p in PRIVILEGES_2 { NoOnIn2(p, i); }
    if p in PRIVILEGES_3 { NoOnIn3(p, i); }
    if p in PRIVILEGES_4 { NoOnIn4(p, i); }
    if p in PRIVILEGES_5 { NoOnIn5(p, i); }
    if p in PRIVILEGES_6 { NoOnIn6(p, i); }
    if p in PRIVILEGES_7 { NoOnIn7(p, i); }
    if p in PRIVILEGES_8 { NoOnIn8(p, i); }
    if p in PRIVILEGES_9 { NoOnIn9(p, i); }
  }

  /** Padding and case do not hide a word that begins with ON. */
  lemma OnSurvivesTrim(privilege: string, j: nat) returns (i: nat)
    requires OccursAt(privilege, " ON", j)
    ensures WordOnAt(Upper(Trim(privilege)), i)
  {
    var lo, hi := TrimIsWindow(privilege);
    assert privilege[j..j + 3][0] == ' ' && privilege[j..j + 3][1] == 'O' && privilege[j..j + 3][2] == 'N';
    assert privilege[j] == ' ' && privilege[j + 1] == 'O' && privilege[j + 2] == 'N';
    assert lo <= j + 1 && j + 2 < hi;
    i := j + 1 - lo;
    var t := Trim(privilege);
    assert t[i] == 'O' && t[i + 1] == 'N' && (i > 0 ==> t[i - 1] == ' ');
  }

  /** However a known privilege is cased and padded, it holds no " ON". */
  lemma KnownPrivilegeHasNoOn(privilege: string, j: nat)
    requires IsKnownPrivilege(privilege)
    ensures !OccursAt(privilege, " ON", j)
  {
    if OccursAt(privilege, " ON", j) {
      var i := OnSurvivesTrim(privilege, j);
      NoOnInTable(Upper(Trim(privilege)), i);
    }
  }

  /** Where the target starts: a privilege without " ON" cannot swallow the start of another. */
  lemma ShorterPrivilegeOn(p: string, d: string, q: string, e: string)
    requires p + " " + d == q + " " + e && |p| < |q|
    requires |d| > 2 && d[0] == 'O' && d[1] == 'N' && |e| > 2 && e[0] == 'O'
    ensures OccursAt(q, " ON", |p|)
  {
    var text := p + " " + d;
    assert text[|p|] == ' ' && text[|p| + 1] == 'O' && text[|p| + 2] == 'N';
    var text' := q + " " + e;
    assert text'[|q|] == ' ' && text'[|q| + 1] == 'O';
    assert |q| >= |p| + 3;
    assert q[|p|] == text'[|p|] && q[|p| + 1] == text'[|p| + 1] && q[|p| + 2] == text'[|p| + 2];
    assert q[|p|..|p| + 3] == " ON";
  }

  /** What follows a known privilege in a reported name begins with ON, so where the privilege ends
      is unambiguous. */
  lemma PrivilegeDetermined(p: string, d: string, q: string, e: string)
    requires IsKnownPrivilege(p) && IsKnownPrivilege(q) && p + " " + d == q + " " + e
    requires |d| > 2 && d[0] == 'O' && d[1] == 'N' && |e| > 2 && e[0] == 'O' && e[1] == 'N'
    ensures p == q && d == e
  {
    if |p| < |q| {
      ShorterPrivilegeOn(p, d, q, e);
      KnownPrivilegeHasNoOn(q, |p|);
    } else if |q| < |p| {
      ShorterPrivilegeOn(q, e, p, d);
      KnownPrivilegeHasNoOn(p, |q|);
    }
    var text := p + " " + d;
    assert p == text[..|p|] == q;
    assert d == text[|p| + 1..] == e;
  }
}
