/** The environment variables the application reads through `process.env`. */
module Environment {
  import opened Wrappers

  datatype Env = Env(vars: map<string, string>)

  function Get(env: Env, name: string): Option<string> {
    if name in env.vars then Some(env.vars[name]) else None
  }

  /** JavaScript truthiness of a possibly undefined string. */
  predicate Truthy(v: Option<string>) {
    v.Some? && v.value != ""
  }

  /** `process.env.NAME || fallback`. */
  function GetOr(env: Env, name: string, fallback: string): (r: string)
    ensures Truthy(Get(env, name)) ==> r == env.vars[name]
    ensures !Truthy(Get(env, name)) ==> r == fallback
  {
    var v := Get(env, name);
    if Truthy(v) then v.value else fallback
  }

  /** `process.env.NODE_ENV === "development"`. */
  predicate IsDevelopment(env: Env) {
    Get(env, "NODE_ENV") == Some("development")
  }

  /** `process.env.NODE_ENV === "production"`. */
  predicate IsProduction(env: Env) {
    Get(env, "NODE_ENV") == Some("production")
  }
}
