/**
 * System-wide defaults (defaults.py). Every memory-layout value can be
 * overridden from the environment; the environment is a parameter here.
 */
module Defaults {
  import opened Common

  type Env = map<string, string>

  /** The page size used when the environment does not set one. */
  const DEFAULT_PAGE_SIZE: int := 4096
  const SHM_POOL_NAME: string := "microview"
  const DEFAULT_RDMA_DEVICE: string := "mlx5_1"
  const DEFAULT_QP_POOL_SIZE: nat := 1
  const DEFAULT_GID: nat := 3
  const DEFAULT_IB_PORT: nat := 1
  const DEFAULT_POLL_INTERVAL: nat := 1
  const DEFAULT_LMAP: nat := 1

  /** An environment variable converted by `convert`; the default when the
      variable is unset or its text does not convert (None stands for the
      conversion raising ValueError or TypeError). */
  function GetEnv<T>(env: Env, name: string, default: T, convert: string -> Option<T>): (r: T)
    ensures name !in env ==> r == default
    ensures name in env && convert(env[name]).Some? ==> r == convert(env[name]).value
    ensures name in env && convert(env[name]).None? ==> r == default
  {
    if name in env then
      match convert(env[name])
      case Some(v) => v
      case None => default
    else default
  }

  /** The shared-memory layout: page size, RDMA MR size and pool size. */
  datatype Layout = Layout(pageSize: int, mrSize: int, poolSize: int)

  /** Each default is derived from the one before it: one page per MR and
      ten MRs per pool, whatever the environment made of the earlier
      values. */
  function MemoryLayout(env: Env): (l: Layout)
    ensures "DEFAULT_RDMA_MR_SIZE" !in env ==> l.mrSize == l.pageSize
    ensures "SHM_POOL_SIZE" !in env ==> l.poolSize == 10 * l.mrSize
  {
    var pageSize := GetEnv(env, "DEFAULT_PAGE_SIZE", DEFAULT_PAGE_SIZE, ParseInt);
    var mrSize := GetEnv(env, "DEFAULT_RDMA_MR_SIZE", 1 * pageSize, ParseInt);
    var poolSize := GetEnv(env, "SHM_POOL_SIZE", 10 * mrSize, ParseInt);
    Layout(pageSize, mrSize, poolSize)
  }

  /** With no overrides: 4096-byte pages, one page per MR, ten MRs, so the
      pool holds ten pages. */
  lemma {:induction false} DefaultLayout(env: Env)
    requires "DEFAULT_PAGE_SIZE" !in env && "DEFAULT_RDMA_MR_SIZE" !in env && "SHM_POOL_SIZE" !in env
    ensures MemoryLayout(env) == Layout(4096, 4096, 40960)
    ensures MemoryLayout(env).poolSize / MemoryLayout(env).mrSize == 10
    ensures MemoryLayout(env).poolSize / MemoryLayout(env).pageSize == 10
  {
  }

  /** An override that is not an integer is ignored: the page size stays
      4096 whatever text the variable holds, unless it parses. */
  lemma {:induction false} MalformedOverrideIgnored(env: Env)
    requires "DEFAULT_PAGE_SIZE" in env && ParseInt(env["DEFAULT_PAGE_SIZE"]).None?
    ensures MemoryLayout(env).pageSize == 4096
  {
  }

  /** The host-name prefix of the NICs; any text is accepted. */
  function HostnamePrefix(env: Env): (p: string)
    ensures "IPU_HOSTNAME_PREFIX" in env ==> p == env["IPU_HOSTNAME_PREFIX"]
    ensures "IPU_HOSTNAME_PREFIX" !in env ==> p == "mcbf"
  {
    GetEnv(env, "IPU_HOSTNAME_PREFIX", "mcbf", (s: string) => Some(s))
  }
}
