/** The configuration class: environment variables with defaults, the
    `provider/model` strings handed to LiteLLM, and the start-up warning. */
module Config {
  import opened Base
  import opened Text

  /** The process environment after `.env` has been loaded. */
  type Env = map<string, string>

  datatype Settings = Settings(
    llmProvider: string,
    llmModelName: string,
    llmModelString: string,
    embeddingProvider: string,
    embeddingModelName: string,
    embeddingModelString: string,
    vectorDbPath: string,
    groqApiKey: Option<string>,
    openaiApiKey: Option<string>,
    ollamaApiBase: string)

  const GroqWarning := "Warning: LLM_PROVIDER is 'groq' but GROQ_API_KEY is missing."

  /** `os.getenv(key, default)`: a variable set to the empty string is returned
      as the empty string, not replaced by the default. */
  function GetEnv(env: Env, key: string, default: string): string {
    if key in env then env[key] else default
  }

  /** `os.getenv(key)` without a default. */
  function GetEnvOpt(env: Env, key: string): Option<string> {
    if key in env then Some(env[key]) else None
  }

  /** The LiteLLM model string: `provider/name`, unless the provider is empty or
      the name already carries that prefix. */
  function ModelString(provider: string, name: string): (r: string)
    ensures provider == "" ==> r == name
    ensures provider != "" ==> StartsWith(r, provider + "/")
    ensures StartsWith(name, provider + "/") ==> r == name
    ensures r == name || r == provider + "/" + name
  {
    if provider != "" && !StartsWith(name, provider + "/") then provider + "/" + name
    else name
  }

  /** With a non-empty provider and a name lacking its prefix, the prefix is
      added exactly once. */
  lemma ModelStringAddsPrefix(provider: string, name: string)
    requires provider != "" && !StartsWith(name, provider + "/")
    ensures ModelString(provider, name) == provider + "/" + name
  {
  }

  /** Normalising an already normalised string changes nothing: the prefix is
      never doubled. */
  lemma ModelStringIdempotent(provider: string, name: string)
    ensures ModelString(provider, ModelString(provider, name)) == ModelString(provider, name)
  {
  }

  function Load(env: Env): (s: Settings)
    ensures s.llmModelString == ModelString(s.llmProvider, s.llmModelName)
    ensures s.embeddingModelString == ModelString(s.embeddingProvider, s.embeddingModelName)
    ensures "LLM_PROVIDER" !in env ==> s.llmProvider == "vertex_ai"
    ensures "LLM_MODEL_NAME" !in env ==> s.llmModelName == "gemini-1.5-pro"
    ensures "EMBEDDING_PROVIDER" !in env ==> s.embeddingProvider == "vertex_ai"
    ensures "EMBEDDING_MODEL_NAME" !in env ==> s.embeddingModelName == "text-embedding-004"
    ensures "LLM_PROVIDER" in env ==> s.llmProvider == env["LLM_PROVIDER"]
    ensures "LLM_MODEL_NAME" in env ==> s.llmModelName == env["LLM_MODEL_NAME"]
    ensures "EMBEDDING_PROVIDER" in env ==> s.embeddingProvider == env["EMBEDDING_PROVIDER"]
    ensures "EMBEDDING_MODEL_NAME" in env ==> s.embeddingModelName == env["EMBEDDING_MODEL_NAME"]
    ensures "VECTOR_DB_PATH" !in env ==> s.vectorDbPath == "./chroma_db"
    ensures "VECTOR_DB_PATH" in env ==> s.vectorDbPath == env["VECTOR_DB_PATH"]
    ensures s.groqApiKey.Some? <==> "GROQ_API_KEY" in env
    ensures s.groqApiKey.Some? ==> s.groqApiKey.value == env["GROQ_API_KEY"]
  {
    var llmProvider := GetEnv(env, "LLM_PROVIDER", "vertex_ai");
    var llmName := GetEnv(env, "LLM_MODEL_NAME", "gemini-1.5-pro");
    var embProvider := GetEnv(env, "EMBEDDING_PROVIDER", "vertex_ai");
    var embName := GetEnv(env, "EMBEDDING_MODEL_NAME", "text-embedding-004");
    Settings(
      llmProvider, llmName, ModelString(llmProvider, llmName),
      embProvider, embName, ModelString(embProvider, embName),
      GetEnv(env, "VECTOR_DB_PATH", "./chroma_db"),
      GetEnvOpt(env, "GROQ_API_KEY"),
      GetEnvOpt(env, "OPENAI_API_KEY"),
      GetEnv(env, "OLLAMA_API_BASE", "http://localhost:11434"))
  }

  /** `LLM_PROVIDER` set to the empty string is not replaced by the default:
      the model string is then the bare model name. */
  lemma EmptyProviderKeepsName(env: Env)
    requires "LLM_PROVIDER" in env && env["LLM_PROVIDER"] == ""
    ensures Load(env).llmModelString == GetEnv(env, "LLM_MODEL_NAME", "gemini-1.5-pro")
  {
  }

  /** The LLM string depends only on the two LLM variables and the embedding
      string only on the two embedding variables. */
  lemma ModelStringsIndependent(env1: Env, env2: Env)
    ensures GetEnv(env1, "LLM_PROVIDER", "vertex_ai") == GetEnv(env2, "LLM_PROVIDER", "vertex_ai")
         && GetEnv(env1, "LLM_MODEL_NAME", "gemini-1.5-pro") == GetEnv(env2, "LLM_MODEL_NAME", "gemini-1.5-pro")
         ==> Load(env1).llmModelString == Load(env2).llmModelString
    ensures GetEnv(env1, "EMBEDDING_PROVIDER", "vertex_ai") == GetEnv(env2, "EMBEDDING_PROVIDER", "vertex_ai")
         && GetEnv(env1, "EMBEDDING_MODEL_NAME", "text-embedding-004") == GetEnv(env2, "EMBEDDING_MODEL_NAME", "text-embedding-004")
         ==> Load(env1).embeddingModelString == Load(env2).embeddingModelString
  {
  }

  /** `Config.validate()`: the warning it prints, if any. */
  function Validate(s: Settings): (w: Option<string>)
    ensures w.Some? <==> s.llmProvider == "groq" && (s.groqApiKey == None || s.groqApiKey == Some(""))
    ensures w.Some? ==> w.value == GroqWarning
  {
    if s.llmProvider == "groq" && (s.groqApiKey.None? || s.groqApiKey.value == "") then Some(GroqWarning)
    else None
  }

  /** In terms of the environment: the warning appears iff `LLM_PROVIDER` is
      set to `groq` and `GROQ_API_KEY` is unset or empty; the defaults never warn. */
  lemma ValidateFromEnv(env: Env)
    ensures Validate(Load(env)).Some?
        <==> "LLM_PROVIDER" in env && env["LLM_PROVIDER"] == "groq"
             && ("GROQ_API_KEY" !in env || env["GROQ_API_KEY"] == "")
  {
  }
}
