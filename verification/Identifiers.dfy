// src/postgres/identifier.rs: the character class that makes quoted names lexable.

module Identifiers {
  import opened Results

  predicate IsDigit(c: char) {
    '0' <= c <= '9'
  }

  predicate IdentStart(c: char) {
    c == '_' || 'a' <= c <= 'z' || 'A' <= c <= 'Z'
  }

  predicate IdentPart(c: char) {
    IdentStart(c) || IsDigit(c)
  }

  predicate ValidIdentifier(s: string) {
    && s != ""
    && IdentStart(s[0])
    && forall i | 0 <= i < |s| :: IdentPart(s[i])
  }

  type PgIdentifier = s: string | ValidIdentifier(s) witness "x"

  /** `PgIdentifier::new`: refuses the empty name and every character outside the class. */
  function NewIdentifier(value: string): (r: Result<PgIdentifier>)
    ensures r.Ok? <==> ValidIdentifier(value)
    ensures r.Ok?
       <==> && value != "" && !('0' <= value[0] <= '9')
            && forall i | 0 <= i < |value| ::
                 var c := value[i];
                 c == '_' || 'a' <= c <= 'z' || 'A' <= c <= 'Z' || '0' <= c <= '9'
    ensures r.Ok? ==> r.value == value && forall c | c in value :: c != '"' && c != ' ' && c != '.'
    ensures r.Err? ==> r.kind == Validation
  {
    if value == "" then Err(Validation)
    else if IdentStart(value[0]) && (forall i | 1 <= i < |value| :: IdentPart(value[i])) then Ok(value)
    else Err(Validation)
  }

  function Quoted(id: PgIdentifier): string {
    "\"" + id + "\""
  }
}
