/** A recipient of e-mails and the template variables it contributes. */
module RecipientEntity {
  import opened Common
  import opened TemplateVariables

  /** The columns of one `Recipients` row. */
  datatype Recipient = Recipient(
    id: Guid,
    name: string,
    email: string,
    cdc: string,
    isActive: bool,
    createdAt: Time,
    updatedAt: Time)

  const NameKey: string := "usuario.nome"
  const EmailKey: string := "usuario.email"
  const CdcKey: string := "usuario.cdc"

  /**
   * `GetTemplateVariables()`: a new dictionary holding the recipient's name,
   * e-mail address and CDC under three fixed keys, in that order.
   */
  function GetTemplateVariables(r: Recipient): Variables
  {
    [(NameKey, r.name), (EmailKey, r.email), (CdcKey, r.cdc)]
  }

  /**
   * The dictionary has exactly the three keys, each once, in that order, and
   * maps them to the recipient's name, e-mail address and CDC.
   */
  lemma TemplateVariablesLookup(r: Recipient)
    ensures var vs := GetTemplateVariables(r);
      |vs| == 3 && UniqueKeys(vs) &&
      vs[0].0 == NameKey && vs[1].0 == EmailKey && vs[2].0 == CdcKey &&
      Lookup(vs, NameKey) == Some(r.name) &&
      Lookup(vs, EmailKey) == Some(r.email) &&
      Lookup(vs, CdcKey) == Some(r.cdc) &&
      forall k :: k != NameKey && k != EmailKey && k != CdcKey ==> Lookup(vs, k).None?
  {
  }
}
