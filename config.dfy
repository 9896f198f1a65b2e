/** The key-value settings the core reads, with the defaults of backend/app/config.py. */
module Config {

  datatype Settings = Settings(
    llmProvider: string,
    llmApiKey: string,
    embedProvider: string,
    embedApiKey: string,
    faissIndexPath: string,
    chunkSize: int,
    chunkOverlap: int,
    maxRetrieve: int)

  /** The settings when no environment variable overrides them. */
  const DefaultSettings := Settings(
    llmProvider := "gemini",
    llmApiKey := "",
    embedProvider := "gemini",
    embedApiKey := "",
    faissIndexPath := "../data/faiss/index.bin",
    chunkSize := 900,
    chunkOverlap := 120,
    maxRetrieve := 5)
}
