/** The authority of one keychain credential, at the level of values.

    An account names its binding and its generation outright. References.dfy
    justifies that reading: the textual sentinel of a binding yields the account
    of that binding and of no other, as long as the digest is collision-free. */
module Credentials {
  datatype Field =
    | CloudToken
    | GrafanaToken
    | GrafanaPassword
    | OAuthToken
    | OAuthRefreshToken
    | SMToken

  /** One secret field of one stack or cloud entry of one config document. */
  datatype Key = Key(source: string, owner: string, field: Field)

  datatype Binding = Binding(key: Key, destination: string) {
    predicate Valid() {
      key.source != "" && key.owner != "" && destination != ""
    }
  }

  datatype Account = Account(binding: Binding, generation: nat)

  /** What a secret field can hold: nothing, a plaintext secret, a v2 reference
      or a legacy (unbound) reference. */
  datatype Text =
    | Empty
    | Plain(secret: string)
    | Bound(account: Account)
    | Legacy(reference: string)
  {
    predicate IsSentinel() {
      Bound? || Legacy?
    }

    predicate Matches(binding: Binding) {
      Bound? && binding.Valid() && account.binding == binding
    }
  }

  /** `Disabled` wraps `Unavailable` in the source: every test for the latter
      also accepts the former. */
  datatype StoreError = NotFound | Unavailable | Disabled | Locked | OtherFailure {
    predicate IsUnavailable() {
      Unavailable? || Disabled?
    }
  }

  /** A secret field together with the destination it may be presented to. */
  datatype Slot = Slot(text: Text, destination: string)

  type Secrets = map<Key, Slot>

  function BindingAt(secrets: Secrets, key: Key): Binding
    requires key in secrets
  {
    Binding(key, secrets[key].destination)
  }
}
